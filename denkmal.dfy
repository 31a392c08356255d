/**
 * DenkmallisteGenerator: the list of the cultural monuments of
 * Schleswig-Holstein. The list is downloaded once per URL as a JSON array,
 * every entry is normalised in place and filed under its county, and then
 * either the whole state ("denkmalliste") or one county is written as JSON
 * and as a semicolon-separated CSV file, in UTF-8 and in ISO-8859-1.
 * Parsing the downloaded bytes as JSON is a parameter of the model.
 */
module DenkmallisteGenerator {
  import opened Wrappers
  import opened Text
  import opened Json
  import Files

  type Bytes = seq<Files.Byte>

  // ---------------------------------------------------------------- the constructor

  /** The generator for the PDF edition of the list. */
  datatype PdfDownload =
    | JustDownload(fileName: string, url: string, username: Option<string>, password: Option<string>)
    | Noop

  /** A plain download named after the county when a pdf URL is given, otherwise nothing. */
  function PdfGenerator(pdf: Option<string>, county: Option<string>, username: Option<string>, password: Option<string>)
    : (r: PdfDownload)
    ensures r.Noop? <==> BlankOpt(pdf)
    ensures r.JustDownload? ==>
      pdf == Some(r.url) && r.fileName == NullText(county) + ".pdf" &&
      r.username == username && r.password == password
  {
    if BlankOpt(pdf) then Noop else JustDownload(NullText(county) + ".pdf", pdf.value, username, password)
  }

  // ---------------------------------------------------------------- the download memo

  /** downloadJSONfile as a function of the memo: the answer and the memo afterwards. */
  function Fetch(cache: map<string, Bytes>, url: string, status: int, body: Bytes): (out: (Result<Bytes>, map<string, Bytes>))
    ensures url in cache ==> out.0 == Ok(cache[url])
    ensures out.0.Ok? <==> url in cache || status == 200
    ensures out.0.Ok? ==> out.1 == cache[url := out.0.value]
    ensures out.0.Err? ==> out.1 == cache
  {
    if url in cache then (Ok(cache[url]), cache)
    else if status == 200 then (Ok(body), cache[url := body])
    else (Err("FileNotFoundException: " + url), cache)
  }

  /** Once a URL was fetched, every later request for it returns the same bytes and leaves the memo alone, whatever the server would say. */
  lemma FetchMemoised(cache: map<string, Bytes>, url: string, status: int, body: Bytes, status2: int, body2: Bytes)
    requires Fetch(cache, url, status, body).0.Ok?
    ensures var (first, after) := Fetch(cache, url, status, body);
      Fetch(after, url, status2, body2) == (first, after)
  {
  }

  /** The memo is static: one per run, shared by every Denkmalliste generator. */
  class DownloadCache {
    var cache: map<string, Bytes>

    constructor ()
      ensures cache == map[]
    {
      cache := map[];
    }

    /**
     * downloadJSONfile: a URL in the memo is answered from it with no
     * request; otherwise `status` and `body` are the server's answer, which
     * is stored when the status is 200 and throws otherwise.
     */
    method Download(url: string, status: int, body: Bytes) returns (r: Result<Bytes>)
      modifies this
      ensures (r, cache) == Fetch(old(cache), url, status, body)
    {
      if url in cache {
        return Ok(cache[url]);
      }
      if status == 200 {
        cache := cache[url := body];
        return Ok(body);
      }
      r := Err("FileNotFoundException: " + url);
    }
  }

  // ---------------------------------------------------------------- one entry

  const Address: string := "Adresse-Lage"
  const Type: string := "Kulturdenkmaltyp"
  /** The type under a key with a trailing blank, as some exports have it. */
  const TypeWithBlank: string := "Kulturdenkmaltyp "
  const Reasons: string := "Begründung"
  const Scope: string := "Schutzumfang"
  const Photo: string := "FotoURL"

  /** The object numbers whose missing type means a protection zone. */
  const ProtectionZones: set<int> := {13298, 13299, 13300, 13301, 29353, 33001}
  const ZoneType: string := "Schutzzone"
  const MovableType: string := "Bewegliches Kulturdenkmal"

  /** The photos: the file names in the photo directory, and the base URL they are published under. */
  datatype Photos = Photos(files: set<string>, baseUrl: Option<string>)

  /** An entry after normalisation, with its number and county. */
  datatype Monument = Monument(number: int, county: string, fields: Object)

  /** A key that cleanArray has dealt with: gone, or a value other than a string whose text is not blank. */
  predicate Cleaned(e: Object, key: string)
  {
    key in e ==> !e[key].JStr? && !Blank(ToText(e[key]))
  }

  /**
   * cleanArray: a value whose text is blank removes the key, a string value
   * becomes an array holding that string, any other value stays.
   */
  function CleanArray(e: Object, key: string): (r: Object)
    ensures Cleaned(r, key)
    ensures r - {key} == e - {key}
    ensures key in r <==> key in e && !Blank(ToText(e[key]))
    ensures key in e && e[key].JStr? && !Blank(e[key].s) ==> r[key] == JArr([e[key]])
    ensures key in e && !e[key].JStr? && !Blank(ToText(e[key])) ==> r[key] == e[key]
  {
    if key !in e then e
    else if Blank(ToText(e[key])) then e - {key}
    else if e[key].JStr? then
      var a := JArr([e[key]]);
      assert ToText(a)[0] == '[';
      e[key := a]
    else e
  }

  lemma CleanArrayIdempotent(e: Object, key: string)
    ensures CleanArray(CleanArray(e, key), key) == CleanArray(e, key)
  {
  }

  /** A text with nothing at or below U+0020 at either end, as String.trim leaves it. */
  predicate Trimmed(s: string)
  {
    s == [] || (s[0] > ' ' && s[|s| - 1] > ' ')
  }

  /** A blank address is removed, any other is trimmed; an address that is no string throws. */
  function TrimAddress(e: Object): (r: Result<Object>)
    ensures r.Ok? <==> (Address in e ==> e[Address].JStr?)
    ensures r.Ok? ==> r.value - {Address} == e - {Address}
    ensures r.Ok? ==> (Address in r.value <==> Address in e && !Blank(e[Address].s))
    ensures r.Ok? && Address in r.value ==> r.value[Address] == JStr(Trim(e[Address].s))
  {
    if Address !in e then Ok(e)
    else
      var a :- GetString(e, Address);
      if Blank(a) then Ok(e - {Address}) else Ok(e[Address := JStr(Trim(a))])
  }

  /** The type under the key with a trailing blank moves, trimmed, to the proper key. */
  function RenameType(e: Object): (r: Result<Object>)
    ensures r.Ok? <==> (TypeWithBlank in e ==> e[TypeWithBlank].JStr?)
    ensures r.Ok? ==> TypeWithBlank !in r.value && r.value - {Type} == e - {Type, TypeWithBlank}
    ensures r.Ok? && TypeWithBlank in e ==> Type in r.value && r.value[Type] == JStr(Trim(e[TypeWithBlank].s))
    ensures r.Ok? && TypeWithBlank !in e ==> r.value == e
  {
    if TypeWithBlank !in e then Ok(e)
    else
      var t :- GetString(e, TypeWithBlank);
      Ok(e[Type := JStr(Trim(t))] - {TypeWithBlank})
  }

  lemma NotBlank(s: string)
    requires s != [] && !IsWhitespace(s[0])
    ensures !Blank(s)
  {
  }

  /**
   * A blank type becomes "Schutzzone" for the six listed object numbers and
   * "Bewegliches Kulturdenkmal" for any other; a type that is no string throws.
   */
  function DefaultType(e: Object, n: int): (r: Result<Object>)
    ensures r.Ok? <==> (Type in e ==> e[Type].JStr?)
    ensures r.Ok? ==> r.value - {Type} == e - {Type} && (Type in r.value <==> Type in e)
    ensures r.Ok? && Type in e ==> r.value[Type].JStr? && !Blank(r.value[Type].s)
    ensures r.Ok? && Type in e && !Blank(e[Type].s) ==> r.value[Type] == e[Type]
    ensures r.Ok? && Type in e && Blank(e[Type].s) ==>
      r.value[Type] == JStr(if n in ProtectionZones then ZoneType else MovableType)
  {
    if Type !in e then Ok(e)
    else
      var t :- GetString(e, Type);
      if !Blank(t) then Ok(e)
      else
        NotBlank(ZoneType);
        NotBlank(MovableType);
        Ok(e[Type := JStr(if n in ProtectionZones then ZoneType else MovableType)])
  }

  /** The photo file of an object number: "<number>.jpg". */
  function PhotoFile(n: int): string
  {
    IntText(n) + ".jpg"
  }

  predicate HasPhoto(n: int, photos: Option<Photos>)
  {
    photos.Some? && PhotoFile(n) in photos.value.files
  }

  /** An entry with a photo in the photo directory gets the photo's URL. */
  function AddPhoto(e: Object, n: int, photos: Option<Photos>): (r: Object)
    ensures r - {Photo} == e - {Photo}
    ensures HasPhoto(n, photos) ==> Photo in r && r[Photo] == JStr(NullText(photos.value.baseUrl) + PhotoFile(n))
    ensures !HasPhoto(n, photos) ==> r == e
  {
    if HasPhoto(n, photos) then e[Photo := JStr(NullText(photos.value.baseUrl) + PhotoFile(n))] else e
  }

  predicate NoDropped(e: Object)
  {
    "Volltext" !in e && "Index" !in e && "lng" !in e && "lat" !in e && "FotoUrl" !in e
  }

  predicate AddressOk(e: Object)
  {
    Address in e ==> e[Address].JStr? && Trimmed(e[Address].s)
  }

  predicate TypeOk(e: Object)
  {
    TypeWithBlank !in e && (Type in e ==> e[Type].JStr? && !Blank(e[Type].s))
  }

  /** What every normalised entry satisfies. */
  predicate Normalised(e: Object)
  {
    NoDropped(e) && AddressOk(e) && TypeOk(e) &&
    Cleaned(e, Reasons) && Cleaned(e, Scope) &&
    "Kreis" in e && e["Kreis"].JStr?
  }

  /**
   * One entry of processXmlFile's loop: it must be an object with an int
   * Objektnummer; the search and map members go, the address, type, reasons,
   * scope and photo are normalised, and the county is its Kreis, which must
   * be a string.
   */
  function Normalise(el: Json, photos: Option<Photos>): (r: Result<Monument>)
    ensures !el.JObj? ==> r.Err?
    ensures r.Ok? ==>
      Normalised(r.value.fields) &&
      r.value.fields["Kreis"] == JStr(r.value.county) &&
      GetInt(el.fields, "Objektnummer") == Ok(r.value.number)
  {
    if !el.JObj? then Err("JSONArray[i] is not a JSONObject.")
    else
      var n :- GetInt(el.fields, "Objektnummer");
      var e0 := el.fields - {"Volltext", "Index", "lng", "lat", "FotoUrl"};
      var e1 :- TrimAddress(e0);
      AddressStep(e0, e1);
      var e2 :- RenameType(e1);
      RenameStep(e1, e2);
      var e3 :- DefaultType(e2, n);
      DefaultStep(e2, n, e3);
      var e4 := CleanArray(e3, Reasons);
      CleanStep(e3, Reasons, Scope);
      var e5 := CleanArray(e4, Scope);
      CleanStep(e4, Scope, Reasons);
      var e := AddPhoto(e5, n, photos);
      PhotoStep(e5, e);
      var county :- GetString(e, "Kreis");
      Ok(Monument(n, county, e))
  }

  lemma AddressStep(e0: Object, e1: Object)
    requires NoDropped(e0) && TrimAddress(e0) == Ok(e1)
    ensures NoDropped(e1) && AddressOk(e1)
  {
    SameOutside(e1, e0, {Address});
  }

  lemma RenameStep(e1: Object, e2: Object)
    requires NoDropped(e1) && AddressOk(e1) && RenameType(e1) == Ok(e2)
    ensures NoDropped(e2) && AddressOk(e2) && TypeWithBlank !in e2
  {
    SameOutside(e2, e1, {Type, TypeWithBlank});
  }

  lemma DefaultStep(e2: Object, n: int, e3: Object)
    requires NoDropped(e2) && AddressOk(e2) && TypeWithBlank !in e2 && DefaultType(e2, n) == Ok(e3)
    ensures NoDropped(e3) && AddressOk(e3) && TypeOk(e3)
  {
    SameOutside(e3, e2, {Type});
  }

  lemma CleanStep(e: Object, key: string, other: string)
    requires key in {Reasons, Scope} && other in {Reasons, Scope} && key != other
    ensures NoDropped(e) && AddressOk(e) && TypeOk(e) ==>
      var r := CleanArray(e, key); NoDropped(r) && AddressOk(r) && TypeOk(r)
    ensures Cleaned(e, other) ==> Cleaned(CleanArray(e, key), other)
  {
    SameOutside(CleanArray(e, key), e, {key});
  }

  lemma PhotoStep(e5: Object, e: Object)
    requires e - {Photo} == e5 - {Photo}
    requires NoDropped(e5) && AddressOk(e5) && TypeOk(e5) && Cleaned(e5, Reasons) && Cleaned(e5, Scope)
    ensures NoDropped(e) && AddressOk(e) && TypeOk(e) && Cleaned(e, Reasons) && Cleaned(e, Scope)
  {
    SameOutside(e, e5, {Photo});
  }

  /** Two objects that agree once the keys in `x` are taken out agree on every other key. */
  lemma SameOutside(a: Object, b: Object, x: set<string>)
    requires a - x == b - x
    ensures forall k :: k !in x ==> (k in a <==> k in b) && (k in a ==> a[k] == b[k])
  {
    forall k | k !in x ensures (k in a <==> k in b) && (k in a ==> a[k] == b[k]) {
      assert k in a <==> k in a - x;
      assert k in b <==> k in b - x;
      if k in a {
        assert a[k] == (a - x)[k];
        assert b[k] == (b - x)[k];
      }
    }
  }

  function NormaliseWith(photos: Option<Photos>): Json -> Result<Monument>
  {
    el => Normalise(el, photos)
  }

  /** The normalised entries in input order; the first entry that throws stops the run. */
  function Monuments(list: seq<Json>, photos: Option<Photos>): Result<seq<Monument>>
  {
    MapAll(list, NormaliseWith(photos))
  }

  // ---------------------------------------------------------------- grouping by county

  /** The entries of one county, in input order. */
  function OfCounty(ms: seq<Monument>, c: string): (r: seq<Object>)
    ensures |r| <= |ms|
  {
    if ms == [] then []
    else OfCounty(ms[..|ms| - 1], c) + (if ms[|ms| - 1].county == c then [ms[|ms| - 1].fields] else [])
  }

  /** perCounty after the loop: each entry appended to its county's array, an array made for a county first seen. */
  function Group(ms: seq<Monument>): map<string, seq<Object>>
  {
    if ms == [] then map[]
    else
      var g := Group(ms[..|ms| - 1]);
      var m := ms[|ms| - 1];
      g[m.county := (if m.county in g then g[m.county] else []) + [m.fields]]
  }

  /** perCounty has an array exactly for the counties that occur, holding that county's entries in input order. */
  lemma {:induction false} GroupByCounty(ms: seq<Monument>)
    ensures forall c :: c in Group(ms) <==> exists i :: 0 <= i < |ms| && ms[i].county == c
    ensures forall c :: c in Group(ms) ==> Group(ms)[c] == OfCounty(ms, c)
    ensures forall c :: c !in Group(ms) ==> OfCounty(ms, c) == []
  {
    if ms != [] {
      var init := ms[..|ms| - 1];
      GroupByCounty(init);
      forall c | c !in Group(ms) ensures OfCounty(ms, c) == [] {
        assert c !in Group(init);
      }
      forall c ensures c in Group(ms) <==> exists i :: 0 <= i < |ms| && ms[i].county == c {
        if c in Group(init) {
          var i :| 0 <= i < |init| && init[i].county == c;
          assert ms[i].county == c;
        }
        if exists i :: 0 <= i < |ms| && ms[i].county == c {
          var i :| 0 <= i < |ms| && ms[i].county == c;
          if i < |init| { assert init[i].county == c; }
        }
      }
    }
  }

  /** The arrays of `order`'s counties one after the other. */
  function Flatten(g: map<string, seq<Object>>, order: seq<string>): seq<Object>
    requires forall i :: 0 <= i < |order| ==> order[i] in g
  {
    if order == [] then [] else Flatten(g, order[..|order| - 1]) + g[order[|order| - 1]]
  }

  /** The entries of the counties `order` names, county after county. */
  function FlattenOf(ms: seq<Monument>, order: seq<string>): seq<Object>
  {
    if order == [] then [] else FlattenOf(ms, order[..|order| - 1]) + OfCounty(ms, order[|order| - 1])
  }

  /** The entries whose county is not in `excluded`, in input order. */
  function Without(ms: seq<Monument>, excluded: seq<string>): seq<Object>
  {
    if ms == [] then []
    else Without(ms[..|ms| - 1], excluded) + (if ms[|ms| - 1].county in excluded then [] else [ms[|ms| - 1].fields])
  }

  function AllFields(ms: seq<Monument>): (r: seq<Object>)
    ensures |r| == |ms|
  {
    seq(|ms|, i requires 0 <= i < |ms| => ms[i].fields)
  }

  lemma {:induction false} SplitOff(ms: seq<Monument>, excluded: seq<string>, c: string)
    requires c !in excluded
    ensures multiset(Without(ms, excluded)) == multiset(OfCounty(ms, c)) + multiset(Without(ms, excluded + [c]))
  {
    if ms != [] {
      SplitOff(ms[..|ms| - 1], excluded, c);
    }
  }

  lemma {:induction false} FlattenCovers(ms: seq<Monument>, order: seq<string>, excluded: seq<string>)
    requires forall i :: 0 <= i < |order| ==> order[i] !in excluded
    requires forall i, j :: 0 <= i < j < |order| ==> order[i] != order[j]
    ensures multiset(FlattenOf(ms, order)) + multiset(Without(ms, excluded + order)) == multiset(Without(ms, excluded))
  {
    if order == [] {
      assert excluded + order == excluded;
    } else {
      var init := order[..|order| - 1];
      var last := order[|order| - 1];
      FlattenCovers(ms, init, excluded);
      assert last !in excluded + init;
      SplitOff(ms, excluded + init, last);
      assert excluded + init + [last] == excluded + order;
    }
  }

  lemma {:induction false} NoneLeft(ms: seq<Monument>, order: seq<string>)
    requires forall i :: 0 <= i < |ms| ==> ms[i].county in order
    ensures Without(ms, order) == []
  {
    if ms != [] {
      NoneLeft(ms[..|ms| - 1], order);
    }
  }

  lemma {:induction false} NoneExcluded(ms: seq<Monument>)
    ensures Without(ms, []) == AllFields(ms)
  {
    if ms != [] {
      var init := ms[..|ms| - 1];
      NoneExcluded(init);
      assert AllFields(ms) == AllFields(init) + [ms[|ms| - 1].fields];
    }
  }

  lemma {:induction false} FlattenGroup(ms: seq<Monument>, order: seq<string>)
    requires forall i :: 0 <= i < |order| ==> order[i] in Group(ms)
    ensures Flatten(Group(ms), order) == FlattenOf(ms, order)
  {
    GroupByCounty(ms);
    if order != [] {
      FlattenGroup(ms, order[..|order| - 1]);
    }
  }

  /**
   * Collecting the arrays of every county, in whatever order the map yields
   * them, gives each entry exactly once.
   */
  lemma AllEntriesOnce(ms: seq<Monument>, order: seq<string>)
    requires forall c :: c in Group(ms) <==> c in order
    requires forall i, j :: 0 <= i < j < |order| ==> order[i] != order[j]
    ensures forall i :: 0 <= i < |order| ==> order[i] in Group(ms)
    ensures multiset(Flatten(Group(ms), order)) == multiset(AllFields(ms))
  {
    OrderInGroup(ms, order);
    FlattenGroup(ms, order);
    CountiesCovered(ms, order);
    EachOnce(ms, order);
  }

  /** Distinct counties that leave no entry over collect each entry exactly once. */
  lemma EachOnce(ms: seq<Monument>, order: seq<string>)
    requires forall i, j :: 0 <= i < j < |order| ==> order[i] != order[j]
    requires Without(ms, order) == []
    ensures multiset(FlattenOf(ms, order)) == multiset(AllFields(ms))
  {
    FlattenCovers(ms, order, []);
    assert [] + order == order;
    NoneExcluded(ms);
  }

  /** Every county `order` names has an array. */
  lemma OrderInGroup(ms: seq<Monument>, order: seq<string>)
    requires forall c :: c in Group(ms) <==> c in order
    ensures forall i :: 0 <= i < |order| ==> order[i] in Group(ms)
  {
    forall i | 0 <= i < |order| ensures order[i] in Group(ms) {
      assert order[i] in order;
    }
  }

  /** When `order` names every county that occurs, no entry is left over. */
  lemma CountiesCovered(ms: seq<Monument>, order: seq<string>)
    requires forall c :: c in Group(ms) ==> c in order
    ensures Without(ms, order) == []
  {
    GroupByCounty(ms);
    forall i | 0 <= i < |ms| ensures ms[i].county in order {
      assert ms[i].county in Group(ms);
    }
    NoneLeft(ms, order);
  }

  // ---------------------------------------------------------------- the CSV file

  const CsvHeader: string :=
    "Objektnummer;Kulturdenkmaltyp;Kreis;Gemeinde;Adresse-Lage;Bezeichnung;Beschreibung;Begründung;Schutzumfang;FotoURL\n"
  /** What stands between two quoted fields. */
  const Sep: string := "\";\""

  /** An optional string member: empty when missing, throws when it is no string. */
  function OptString(e: Object, key: string): (r: Result<string>)
    ensures key !in e ==> r == Ok("")
    ensures key in e ==> r == GetString(e, key)
  {
    if key in e then GetString(e, key) else Ok("")
  }

  /** Object.toString of an array item after JSONArray.toList; a JSON null becomes Java null and throws. */
  function ItemText(v: Json): Result<string>
  {
    if v.JNull? then Err("NullPointerException") else Ok(ToText(v))
  }

  function ItemTexts(items: seq<Json>): Result<seq<string>>
  {
    MapAll(items, ItemText)
  }

  /** An optional array member: its items joined with ", ", empty when missing, throws when it is no array. */
  function OptList(e: Object, key: string): Result<string>
  {
    if key !in e then Ok("")
    else
      var items :- GetArray(e, key);
      var texts :- ItemTexts(items);
      Ok(Join(texts, ", "))
  }

  /** The number and the nine quoted fields of an entry's row, read in the order writeCsv writes them. */
  function RowFields(e: Object): Result<(int, seq<string>)>
  {
    var n :- GetInt(e, "Objektnummer");
    var typ :- OptString(e, Type);
    var county :- GetString(e, "Kreis");
    var municipality :- GetString(e, "Gemeinde");
    var address :- OptString(e, Address);
    var name :- GetString(e, "Bezeichnung");
    var description :- GetString(e, "Beschreibung");
    var reasons :- OptList(e, Reasons);
    var scope :- OptList(e, Scope);
    var photo :- OptString(e, Photo);
    Ok((n, [typ, county, municipality, address, name, description, reasons, scope, photo]))
  }

  /** A row: the number bare, then the fields in quotes separated by semicolons, then CR LF. */
  function RowText(n: int, fields: seq<string>): string
  {
    IntText(n) + ";\"" + Join(fields, Sep) + "\"\r\n"
  }

  function Row(e: Object): Result<string>
  {
    var (n, fields) :- RowFields(e);
    Ok(RowText(n, fields))
  }

  /** The text writeCsv writes for the entries: the header and one row per entry. */
  function Csv(entries: seq<Object>): Result<string>
  {
    var rows :- MapAll(entries, Row);
    Ok(Concat([CsvHeader] + rows))
  }

  /** writeCsv, row by row. */
  method WriteCsv(entries: seq<Object>) returns (r: Result<string>)
    ensures r == Csv(entries)
  {
    var text := CsvHeader;
    ghost var rows: seq<string> := [];
    ghost var lines: seq<string> := [CsvHeader];
    assert entries[..0] == [];
    assert Concat(lines) == Concat([]) + CsvHeader;
    for i := 0 to |entries|
      invariant MapAll(entries[..i], Row) == Ok(rows)
      invariant lines == [CsvHeader] + rows
      invariant text == Concat(lines)
    {
      var row := Row(entries[i]);
      if row.Err? {
        MapAllFailedPrefix(entries, i + 1, Row);
        assert entries[..i + 1][..i] == entries[..i];
        return Err(row.error);
      }
      MapAllStep(entries, i, Row);
      text := text + row.value;
      assert (lines + [row.value])[..|lines|] == lines;
      lines := lines + [row.value];
      rows := rows + [row.value];
    }
    assert entries[..|entries|] == entries;
    r := Ok(text);
  }

  /** The fields of a row's middle part: the text cut at every `";"`. */
  function SplitFields(s: string): (r: seq<string>)
    ensures |r| >= 1
    decreases |s|
  {
    match IndexOf(s, Sep)
    case None => [s]
    case Some(i) => [s[..i]] + SplitFields(s[i + |Sep|..])
  }

  /** A row read back: the number before the first `;"`, the fields up to the closing `"` and CR LF. */
  function ReadRow(line: string): Option<(int, seq<string>)>
  {
    if |line| < 3 || line[|line| - 3..] != "\"\r\n" then None
    else
      var body := line[..|line| - 3];
      match IndexOf(body, ";\"")
      case None => None
      case Some(i) =>
        match ParseInt(body[..i])
        case None => None
        case Some(n) => Some((n, SplitFields(body[i + 2..])))
  }

  lemma JoinCons(fields: seq<string>, sep: string)
    requires |fields| >= 2
    ensures Join(fields, sep) == fields[0] + sep + Join(fields[1..], sep)
    decreases |fields|
  {
    var n := |fields|;
    var init := fields[..n - 1];
    assert fields[1..][..n - 2] == init[1..];
    if n > 2 {
      JoinCons(init, sep);
    }
  }

  /** The separator is found right after a field that holds no quote. */
  lemma SepAfter(f: string, rest: string)
    requires '"' !in f
    ensures IndexOf(f + Sep + rest, Sep) == Some(|f|)
  {
    var s := f + Sep + rest;
    assert s[|f|..|f| + 3] == Sep;
    assert At(s, Sep, |f|);
    forall j | 0 <= j < |f| ensures !At(s, Sep, j) {
      assert s[j] == f[j] && f[j] in f;
      assert j + 3 <= |s| ==> s[j..j + 3][0] == s[j];
    }
    var r := IndexOfFrom(s, Sep, 0);
    assert r.Some? && r.value <= |f|;
  }

  lemma NoSep(f: string)
    requires '"' !in f
    ensures IndexOf(f, Sep) == None
  {
    forall j | 0 <= j ensures !At(f, Sep, j) {
      assert j + 3 <= |f| ==> f[j..j + 3][0] == f[j] && f[j] in f;
    }
  }

  lemma {:induction false} SplitJoin(fields: seq<string>)
    requires |fields| >= 1
    requires forall i :: 0 <= i < |fields| ==> '"' !in fields[i]
    ensures SplitFields(Join(fields, Sep)) == fields
    decreases |fields|
  {
    if |fields| == 1 {
      NoSep(fields[0]);
    } else {
      JoinCons(fields, Sep);
      var rest := Join(fields[1..], Sep);
      SepAfter(fields[0], rest);
      var s := fields[0] + Sep + rest;
      assert s[..|fields[0]|] == fields[0];
      assert s[|fields[0]| + |Sep|..] == rest;
      SplitJoin(fields[1..]);
      assert fields == [fields[0]] + fields[1..];
    }
  }

  /** A row reads back as its number and fields, as long as no field holds a double quote. */
  lemma RowRoundTrip(n: int, fields: seq<string>)
    requires IntMin <= n <= IntMax && |fields| >= 1
    requires forall i :: 0 <= i < |fields| ==> '"' !in fields[i]
    ensures ReadRow(RowText(n, fields)) == Some((n, fields))
  {
    var t := IntText(n);
    var mid := Join(fields, Sep);
    var line := RowText(n, fields);
    var body := t + ";\"" + mid;
    assert line == body + "\"\r\n";
    assert line[..|line| - 3] == body;
    assert line[|line| - 3..] == "\"\r\n";
    assert forall j :: 0 <= j < |t| ==> t[j] == '-' || IsDigit(t[j]);
    forall j | 0 <= j < |t| ensures !At(body, ";\"", j) {
      assert body[j] == t[j];
      assert j + 2 <= |body| ==> body[j..j + 2][0] == body[j];
    }
    assert At(body, ";\"", |t|);
    assert body[|t|..|t| + 2] == ";\"";
    assert IndexOf(body, ";\"") == Some(|t|);
    assert body[..|t|] == t;
    assert body[|t| + 2..] == mid;
    ParseIntText(n, IntMin, IntMax);
    SplitJoin(fields);
  }

  /** ISO-8859-1 as Java's encoder writes it: a character above U+00FF becomes '?'. */
  function Latin1(s: string): (r: Bytes)
    ensures |r| == |s|
  {
    seq(|s|, i requires 0 <= i < |s| => if s[i] as int < 256 then s[i] as int as Files.Byte else 63)
  }

  function Latin1Text(b: Bytes): (r: string)
    ensures |r| == |b|
  {
    seq(|b|, i requires 0 <= i < |b| => b[i] as int as char)
  }

  /** The Latin-1 file reads back as the CSV text iff no character lies above U+00FF; otherwise exactly those turn into '?'. */
  lemma Latin1RoundTrip(s: string)
    ensures Latin1Text(Latin1(s)) == s <==> forall i :: 0 <= i < |s| ==> s[i] as int < 256
    ensures forall i :: 0 <= i < |s| ==> Latin1Text(Latin1(s))[i] == (if s[i] as int < 256 then s[i] else '?')
  {
    if Latin1Text(Latin1(s)) == s {
      forall i | 0 <= i < |s| ensures s[i] as int < 256 {
        assert Latin1Text(Latin1(s))[i] == s[i];
      }
    }
  }

  // ---------------------------------------------------------------- the files

  /** The files written: `<base>.json`, `<base>.csv` in UTF-8 and `<base>-latin1.csv`. */
  datatype Output = Output(base: string, json: Json, csv: string, latin1: Bytes)

  function Objects(entries: seq<Object>): (r: seq<Json>)
    ensures |r| == |entries|
  {
    seq(|entries|, i requires 0 <= i < |entries| => JObj(entries[i]))
  }

  /** The entries to write: every county's, in the map's key order, for a blank county name; else that county's, which must occur. */
  function Selected(g: map<string, seq<Object>>, countyName: Option<string>): Result<(string, seq<Object>)>
  {
    if BlankOpt(countyName) then Ok(("denkmalliste", Flatten(g, SortedKeys(g.Keys))))
    else if countyName.value in g then Ok((countyName.value, g[countyName.value]))
    else Err("NullPointerException")
  }

  /** processXmlFile over the parsed array. */
  function Process(list: seq<Json>, photos: Option<Photos>, countyName: Option<string>): Result<Output>
  {
    var ms :- Monuments(list, photos);
    var (base, entries) :- Selected(Group(ms), countyName);
    var csv :- Csv(entries);
    Ok(Output(base, JArr(Objects(entries)), csv, Latin1(csv)))
  }

  /** For a blank county name the files hold every entry of the list, each once, normalised. */
  lemma WholeState(list: seq<Json>, photos: Option<Photos>, countyName: Option<string>)
    requires BlankOpt(countyName) && Monuments(list, photos).Ok?
    ensures var ms := Monuments(list, photos).value; var g := Group(ms);
      Selected(g, countyName).Ok? &&
      Selected(g, countyName).value.0 == "denkmalliste" &&
      multiset(Selected(g, countyName).value.1) == multiset(AllFields(ms))
  {
    var ms := Monuments(list, photos).value;
    var keys := SortedKeys(Group(ms).Keys);
    AllEntriesOnce(ms, keys);
  }

  /** For a county name, the files hold exactly that county's entries in input order; a county with no entry throws. */
  lemma OneCounty(list: seq<Json>, photos: Option<Photos>, county: string)
    requires !Blank(county) && Monuments(list, photos).Ok?
    ensures var ms := Monuments(list, photos).value; var sel := Selected(Group(ms), Some(county));
      (sel.Ok? <==> exists i :: 0 <= i < |ms| && ms[i].county == county) &&
      (sel.Ok? ==> sel.value == (county, OfCounty(ms, county)))
  {
    GroupByCounty(Monuments(list, photos).value);
  }

  /** Every normalised entry is filed under its own Kreis. */
  lemma {:induction false} OfCountyKreis(ms: seq<Monument>, c: string)
    requires forall i :: 0 <= i < |ms| ==> "Kreis" in ms[i].fields && ms[i].fields["Kreis"] == JStr(ms[i].county)
    ensures forall j :: 0 <= j < |OfCounty(ms, c)| ==> "Kreis" in OfCounty(ms, c)[j] && OfCounty(ms, c)[j]["Kreis"] == JStr(c)
  {
    if ms != [] {
      OfCountyKreis(ms[..|ms| - 1], c);
    }
  }

  /** The entries of a normalised list carry their county in Kreis. */
  lemma MonumentsKreis(list: seq<Json>, photos: Option<Photos>)
    requires Monuments(list, photos).Ok?
    ensures var ms := Monuments(list, photos).value;
      forall i :: 0 <= i < |ms| ==> Normalised(ms[i].fields) && ms[i].fields["Kreis"] == JStr(ms[i].county)
  {
    MapAllEntries(list, NormaliseWith(photos));
  }

  /** processXmlFile's loop: every entry normalised and appended to its county's array in perCounty. */
  method GroupEntries(list: seq<Json>, photos: Option<Photos>) returns (r: Result<map<string, seq<Object>>>)
    ensures Monuments(list, photos).Err? ==> r == Err(Monuments(list, photos).error)
    ensures Monuments(list, photos).Ok? ==> r == Ok(Group(Monuments(list, photos).value))
  {
    var perCounty: map<string, seq<Object>> := map[];
    ghost var done: seq<Monument> := [];
    assert list[..0] == [];
    for i := 0 to |list|
      invariant Monuments(list[..i], photos) == Ok(done)
      invariant perCounty == Group(done)
    {
      var m := Normalise(list[i], photos);
      if m.Err? {
        EntryFails(list, photos, i);
        return Err(m.error);
      }
      EntryFiled(list, photos, i, done);
      var county := m.value.county;
      var items := if county in perCounty then perCounty[county] else [];
      perCounty := perCounty[county := items + [m.value.fields]];
      done := done + [m.value];
    }
    assert list[..|list|] == list;
    r := Ok(perCounty);
  }

  lemma EntryFails(list: seq<Json>, photos: Option<Photos>, i: nat)
    requires i < |list| && Monuments(list[..i], photos).Ok? && Normalise(list[i], photos).Err?
    ensures Monuments(list, photos) == Err(Normalise(list[i], photos).error)
  {
    MapAllFailedPrefix(list, i + 1, NormaliseWith(photos));
    assert list[..i + 1][..i] == list[..i];
  }

  lemma EntryFiled(list: seq<Json>, photos: Option<Photos>, i: nat, done: seq<Monument>)
    requires i < |list| && Monuments(list[..i], photos) == Ok(done) && Normalise(list[i], photos).Ok?
    ensures var m := Normalise(list[i], photos).value; var g := Group(done);
      Monuments(list[..i + 1], photos) == Ok(done + [m]) &&
      Group(done + [m]) == g[m.county := (if m.county in g then g[m.county] else []) + [m.fields]]
  {
    MapAllStep(list, i, NormaliseWith(photos));
    var m := Normalise(list[i], photos).value;
    assert (done + [m])[..|done|] == done;
  }

  /** processXmlFile: the entries grouped, the ones to write selected, and the three files. */
  method ProcessXmlFile(list: seq<Json>, photos: Option<Photos>, countyName: Option<string>) returns (r: Result<Output>)
    ensures r == Process(list, photos, countyName)
  {
    var perCounty :- GroupEntries(list, photos);
    var base: string;
    var entries: seq<Object>;
    if BlankOpt(countyName) {
      base := "denkmalliste";
      entries := Collect(perCounty, SortedKeys(perCounty.Keys));
    } else if countyName.value in perCounty {
      base := countyName.value;
      entries := perCounty[countyName.value];
    } else {
      return Err("NullPointerException");
    }
    var csv :- WriteCsv(entries);
    r := Ok(Output(base, JArr(Objects(entries)), csv, Latin1(csv)));
  }

  /** The arrays of the counties in `order`, copied item by item. */
  method Collect(g: map<string, seq<Object>>, order: seq<string>) returns (all: seq<Object>)
    requires forall i :: 0 <= i < |order| ==> order[i] in g
    ensures all == Flatten(g, order)
  {
    all := [];
    for k := 0 to |order|
      invariant all == Flatten(g, order[..k])
    {
      var items := g[order[k]];
      for j := 0 to |items|
        invariant all == Flatten(g, order[..k]) + items[..j]
      {
        all := all + [items[j]];
        assert items[..j + 1] == items[..j] + [items[j]];
      }
      assert items[..|items|] == items;
      assert order[..k + 1][..k] == order[..k];
    }
    assert order[..|order|] == order;
  }

  /**
   * generateDistributions after the PDF download: the list fetched through
   * the memo, the first three bytes (the byte order mark) skipped, the rest
   * parsed by `parse`, and processXmlFile.
   */
  method GenerateDistributions(
    cache: DownloadCache, jsonUrl: string, status: int, body: Bytes,
    parse: Bytes -> Result<seq<Json>>, photos: Option<Photos>, countyName: Option<string>)
    returns (r: Result<Output>)
    modifies cache
    ensures var (fetched, after) := Fetch(old(cache.cache), jsonUrl, status, body);
      cache.cache == after &&
      (fetched.Err? ==> r == Err(fetched.error)) &&
      (fetched.Ok? && parse(SkipBom(fetched.value)).Err? ==> r == Err(parse(SkipBom(fetched.value)).error)) &&
      (fetched.Ok? && parse(SkipBom(fetched.value)).Ok? ==> r == Process(parse(SkipBom(fetched.value)).value, photos, countyName))
  {
    var bytes :- cache.Download(jsonUrl, status, body);
    var list :- parse(SkipBom(bytes));
    r := ProcessXmlFile(list, photos, countyName);
  }

  /** InputStream.read into a three-byte buffer: up to three bytes are gone. */
  function SkipBom(b: Bytes): (r: Bytes)
    ensures |b| >= 3 ==> r == b[3..]
    ensures |b| < 3 ==> r == []
  {
    if |b| >= 3 then b[3..] else []
  }
}
