/**
 * Directories as the updater sees them: listings of named entries, regular
 * files carrying their bytes. Two directories are compared position by
 * position after sorting each by name (directoriesAreEqual); files are copied
 * into the local cache by name (FileUtils.copyFileToDirectory); upload format
 * and MIME type come from a file's name (getMimeType).
 */
module Files {
  import opened Wrappers
  import opened Text
  import opened Sorting

  newtype Byte = b: int | 0 <= b < 256

  /** A directory entry: a regular file with its content, or something else such as a sub-directory. */
  datatype Entry = Entry(name: string, isFile: bool, content: seq<Byte>)

  /** The entries of a directory in listing order (File.listFiles, whose order is unspecified). */
  type Listing = seq<Entry>

  function Name(e: Entry): string
  {
    e.name
  }

  /** filesAreEqual: both are regular files with the same content (their MD5 digests are compared). */
  predicate SameFile(a: Entry, b: Entry)
  {
    a.isFile && b.isFile && a.content == b.content
  }

  /** Two sorted listings agree position by position. */
  predicate Pairwise(s1: Listing, s2: Listing)
  {
    |s1| == |s2| && forall i :: 0 <= i < |s1| ==> SameFile(s1[i], s2[i])
  }

  /** Both listings exist, have the same length, and agree entry by entry once sorted by name. */
  predicate DirectoriesEqual(d1: Option<Listing>, d2: Option<Listing>)
  {
    d1.Some? && d2.Some? && |d1.value| == |d2.value| && Pairwise(SortBy(d1.value, Name), SortBy(d2.value, Name))
  }

  /** Sorting keeps the number of entries. */
  lemma SortKeepsLength(d: Listing)
    ensures |SortBy(d, Name)| == |d|
  {
    SortByCorrect(d, Name);
    assert |multiset(SortBy(d, Name))| == |multiset(d)|;
  }

  /** directoriesAreEqual: sorts both listings by name, then compares them position by position. */
  method DirectoriesAreEqual(dir1: Option<Listing>, dir2: Option<Listing>) returns (r: bool)
    ensures r == DirectoriesEqual(dir1, dir2)
  {
    if dir1.None? || dir2.None? {
      return false;
    }
    var files1 := SortBy(dir1.value, Name);
    var files2 := SortBy(dir2.value, Name);
    SortKeepsLength(dir1.value);
    SortKeepsLength(dir2.value);
    if |files1| != |files2| {
      return false;
    }
    r := FilesPairwiseEqual(files1, files2);
  }

  /** The comparison loop of directoriesAreEqual over two sorted listings of equal length. */
  method FilesPairwiseEqual(files1: Listing, files2: Listing) returns (r: bool)
    requires |files1| == |files2|
    ensures r == Pairwise(files1, files2)
  {
    var i := 0;
    while i < |files1|
      invariant 0 <= i <= |files1|
      invariant forall j :: 0 <= j < i ==> SameFile(files1[j], files2[j])
    {
      if !SameFile(files1[i], files2[i]) {
        return false;
      }
      i := i + 1;
    }
    return true;
  }

  /** A directory of regular files equals itself. */
  lemma DirectoriesEqualReflexive(d: Listing)
    requires forall i :: 0 <= i < |d| ==> d[i].isFile
    ensures DirectoriesEqual(Some(d), Some(d))
  {
    SortByCorrect(d, Name);
    forall i | 0 <= i < |SortBy(d, Name)| ensures SortBy(d, Name)[i].isFile {
      assert SortBy(d, Name)[i] in multiset(d);
    }
  }

  /** The comparison does not depend on the order of its arguments. */
  lemma DirectoriesEqualSymmetric(d1: Option<Listing>, d2: Option<Listing>)
    ensures DirectoriesEqual(d1, d2) <==> DirectoriesEqual(d2, d1)
  {
  }

  /** A directory holding anything but regular files equals no directory. */
  lemma NonFileNeverEqual(d1: Listing, d2: Option<Listing>, k: nat)
    requires k < |d1| && !d1[k].isFile
    ensures !DirectoriesEqual(Some(d1), d2)
  {
    SortByCorrect(d1, Name);
    SortKeepsLength(d1);
    assert d1[k] in multiset(SortBy(d1, Name));
    var i :| 0 <= i < |SortBy(d1, Name)| && SortBy(d1, Name)[i] == d1[k];
  }

  /** File names are never compared: two single files with equal content are equal directories. */
  lemma NamesNotCompared(a: Entry, b: Entry)
    requires SameFile(a, b)
    ensures DirectoriesEqual(Some([a]), Some([b]))
  {
    assert SortBy([a], Name) == [a];
    assert SortBy([b], Name) == [b];
  }

  // ---------------------------------------------------------------- formats

  /** The upload format: the upper-cased text after the name's last '.'; "" when there is none. */
  function FormatOf(fileName: string): string
  {
    UpperCase(SubstringAfterLast(fileName, "."))
  }

  /** getMimeType. */
  function MimeType(format: string): (r: string)
  {
    if format == "PDF" then "application/pdf"
    else if format == "CSV" then "text/csv"
    else if format == "JSON" then "application/json"
    else if format == "XML" then "application/xml"
    else "application/octet-stream"
  }

  predicate KnownFormat(format: string)
  {
    format == "PDF" || format == "CSV" || format == "JSON" || format == "XML"
  }

  /** Which known format a MIME type stands for. */
  function FormatOfMimeType(m: string): Option<string>
  {
    if m == "application/pdf" then Some("PDF")
    else if m == "text/csv" then Some("CSV")
    else if m == "application/json" then Some("JSON")
    else if m == "application/xml" then Some("XML")
    else None
  }

  /** The four known formats have distinct MIME types; every other format, "" included, is octet-stream. */
  lemma MimeTypeRoundTrip(format: string)
    ensures KnownFormat(format) ==> FormatOfMimeType(MimeType(format)) == Some(format)
    ensures !KnownFormat(format) <==> MimeType(format) == "application/octet-stream"
  {
  }

  /** A name ending in "." + ext, where ext has no '.', has the format ext upper-cased. */
  lemma FormatOfExtension(base: string, ext: string)
    requires ext != "" && forall i :: 0 <= i < |ext| ==> ext[i] != '.'
    ensures FormatOf(base + "." + ext) == UpperCase(ext)
  {
    ExtensionAfterLastDot(base, ext);
  }

  lemma ExtensionAfterLastDot(base: string, ext: string)
    requires ext != "" && forall i :: 0 <= i < |ext| ==> ext[i] != '.'
    ensures SubstringAfterLast(base + "." + ext, ".") == ext
  {
    var s := base + "." + ext;
    assert s[|base|..|base| + 1] == ".";
    assert At(s, ".", |base|);
    forall j | |base| < j < |s| ensures !At(s, ".", j) {
      assert s[j] == ext[j - |base| - 1];
    }
    var i := LastIndexOf(s, ".").value;
    assert i == |base|;
    assert s[|base| + 1..] == ext;
  }

  /** A name without '.' has the empty format. */
  lemma FormatWithoutDot(name: string)
    requires forall i :: 0 <= i < |name| ==> name[i] != '.'
    ensures FormatOf(name) == ""
  {
    match LastIndexOf(name, ".")
    case Some(i) =>
      assert name[i..i + 1] == ".";
    case None =>
  }

  // ---------------------------------------------------------------- copying

  /** The first entry with the name. */
  function Lookup(dir: Listing, name: string): (r: Option<Entry>)
    ensures r.Some? ==> r.value.name == name
  {
    if dir == [] then None
    else if dir[0].name == name then Some(dir[0])
    else Lookup(dir[1..], name)
  }

  /** Copying one file into a directory: it replaces the entry of the same name, or is added. */
  function CopyInto(dir: Listing, f: Entry): Listing
  {
    if dir == [] then [f]
    else if dir[0].name == f.name then [f] + dir[1..]
    else [dir[0]] + CopyInto(dir[1..], f)
  }

  /** After the copy the name finds the copied file, and every other name what it found before. */
  lemma {:induction false} CopyIntoLookup(dir: Listing, f: Entry, name: string)
    ensures Lookup(CopyInto(dir, f), name) == if name == f.name then Some(f) else Lookup(dir, name)
  {
    if dir != [] && dir[0].name != f.name {
      CopyIntoLookup(dir[1..], f, name);
      assert CopyInto(dir, f)[1..] == CopyInto(dir[1..], f);
    } else if dir != [] {
      assert CopyInto(dir, f)[1..] == dir[1..];
    }
  }

  /** The outcome of copying a listing into a directory: the directory reached, and the exception that stopped it. */
  datatype Copied = Copied(dir: Listing, failure: Option<string>)

  /** The copy loop: file after file, until an entry that is not a regular file throws. */
  function CopyAll(dir: Listing, files: Listing): Copied
    decreases |files|
  {
    if files == [] then Copied(dir, None)
    else
      var before := CopyAll(dir, files[..|files| - 1]);
      var f := files[|files| - 1];
      if before.failure.Some? then before
      else if !f.isFile then Copied(before.dir, Some("source is not a regular file: " + f.name))
      else Copied(CopyInto(before.dir, f), None)
  }

  /** A failed copy stays failed as more files follow. */
  lemma {:induction false} CopyAllFailedPrefix(dir: Listing, files: Listing, k: nat)
    requires k <= |files| && CopyAll(dir, files[..k]).failure.Some?
    ensures CopyAll(dir, files) == CopyAll(dir, files[..k])
    decreases |files|
  {
    if k < |files| {
      var init := files[..|files| - 1];
      assert init[..k] == files[..k];
      CopyAllFailedPrefix(dir, init, k);
    } else {
      assert files[..k] == files;
    }
  }

  /**
   * Copying regular files with distinct names: each name then finds its file,
   * and every other name finds what it found before.
   */
  lemma {:induction false} CopyAllLookup(dir: Listing, files: Listing, name: string)
    requires forall i :: 0 <= i < |files| ==> files[i].isFile
    requires forall i, j :: 0 <= i < j < |files| ==> files[i].name != files[j].name
    ensures CopyAll(dir, files).failure.None?
    ensures Lookup(CopyAll(dir, files).dir, name) ==
      if exists i :: 0 <= i < |files| && files[i].name == name
      then Some(files[Position(files, name)])
      else Lookup(dir, name)
    decreases |files|
  {
    if files != [] {
      var init := files[..|files| - 1];
      var f := files[|files| - 1];
      CopyAllLookup(dir, init, name);
      CopyIntoLookup(CopyAll(dir, init).dir, f, name);
      if f.name == name {
        assert Position(files, name) == |files| - 1;
      } else if exists i :: 0 <= i < |files| && files[i].name == name {
        var i :| 0 <= i < |files| && files[i].name == name;
        assert init[i].name == name;
        assert Position(files, name) == Position(init, name);
      }
    }
  }

  /** The position of the last entry of the name (the only one when names are distinct). */
  function Position(files: Listing, name: string): (r: nat)
    requires exists i :: 0 <= i < |files| && files[i].name == name
    ensures r < |files| && files[r].name == name
    decreases |files|
  {
    if files[|files| - 1].name == name then |files| - 1
    else
      var init := files[..|files| - 1];
      var i :| 0 <= i < |files| && files[i].name == name;
      assert init[i].name == name;
      Position(init, name)
  }
}
