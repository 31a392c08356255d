/**
 * JSON values as org.json presents them: objects are maps, arrays sequences.
 * The getters mirror JSONObject.get/getString/getJSONObject/... : each either
 * yields the value or fails where org.json throws a JSONException.
 */
module Json {
  import opened Wrappers
  import opened Text

  datatype Json =
    | JNull
    | JBool(b: bool)
    | JNum(n: int)
    | JStr(s: string)
    | JArr(items: seq<Json>)
    | JObj(fields: map<string, Json>)

  type Object = map<string, Json>

  /** JSONObject.get: fails when the key is missing. */
  function Get(o: Object, k: string): (r: Result<Json>)
    ensures r.Ok? <==> k in o
  {
    if k in o then Ok(o[k]) else Err("JSONObject[\"" + k + "\"] not found.")
  }

  /** JSONObject.getString: the value must be a string. */
  function GetString(o: Object, k: string): (r: Result<string>)
    ensures r.Ok? <==> k in o && o[k].JStr?
    ensures r.Ok? ==> o[k] == JStr(r.value)
  {
    if k in o && o[k].JStr? then Ok(o[k].s) else Err("JSONObject[\"" + k + "\"] is not a string.")
  }

  /** JSONObject.getJSONObject. */
  function GetObject(o: Object, k: string): (r: Result<Object>)
    ensures r.Ok? <==> k in o && o[k].JObj?
    ensures r.Ok? ==> o[k] == JObj(r.value)
  {
    if k in o && o[k].JObj? then Ok(o[k].fields) else Err("JSONObject[\"" + k + "\"] is not a JSONObject.")
  }

  /** JSONObject.getJSONArray. */
  function GetArray(o: Object, k: string): (r: Result<seq<Json>>)
    ensures r.Ok? <==> k in o && o[k].JArr?
    ensures r.Ok? ==> o[k] == JArr(r.value)
  {
    if k in o && o[k].JArr? then Ok(o[k].items) else Err("JSONObject[\"" + k + "\"] is not a JSONArray.")
  }

  /** JSONObject.getBoolean: a boolean, or the text "true"/"false" in any case. */
  function GetBoolean(o: Object, k: string): (r: Result<bool>)
    ensures k in o && o[k].JBool? ==> r == Ok(o[k].b)
    ensures k !in o ==> r.Err?
  {
    if k !in o then Err("JSONObject[\"" + k + "\"] not found.")
    else match o[k]
      case JBool(b) => Ok(b)
      case JStr(s) =>
        if EqualsIgnoreCase(s, "true") then Ok(true)
        else if EqualsIgnoreCase(s, "false") then Ok(false)
        else Err("JSONObject[\"" + k + "\"] is not a Boolean.")
      case _ => Err("JSONObject[\"" + k + "\"] is not a Boolean.")
  }

  /** Number.intValue: two's-complement truncation to 32 bits. */
  function Wrap32(n: int): (r: int)
    ensures IntMin <= r <= IntMax
    ensures IntMin <= n <= IntMax ==> r == n
  {
    (n + 0x8000_0000) % 0x1_0000_0000 - 0x8000_0000
  }

  /** JSONObject.getInt: a number truncated to 32 bits, or a text Integer.parseInt accepts. */
  function GetInt(o: Object, k: string): (r: Result<int>)
    ensures r.Ok? ==> IntMin <= r.value <= IntMax
    ensures k in o && o[k].JNum? && IntMin <= o[k].n <= IntMax ==> r == Ok(o[k].n)
  {
    if k !in o then Err("JSONObject[\"" + k + "\"] not found.")
    else match o[k]
      case JNum(n) => Ok(Wrap32(n))
      case v =>
        match ParseInt(ToText(v))
        case Some(n) => Ok(n)
        case None => Err("JSONObject[\"" + k + "\"] is not an int.")
  }

  /** JSONObject.has. */
  predicate Has(o: Object, k: string)
  {
    k in o
  }

  /** JSONObject.put(k, v) with a possibly null value: a null value removes the key. */
  function PutOpt(o: Object, k: string, v: Option<string>): (r: Object)
    ensures v.Some? ==> r == o[k := JStr(v.value)]
    ensures v.None? ==> k !in r && forall j :: j in o && j != k ==> j in r && r[j] == o[j]
  {
    if v.Some? then o[k := JStr(v.value)] else o - {k}
  }

  // ---------------------------------------------------------------- text

  /** Object.toString of a JSON value: a string as itself, anything else as JSON text. */
  function ToText(v: Json): (r: string)
    ensures v.JStr? ==> r == v.s
    ensures v.JArr? ==> r != [] && r[0] == '['
    ensures v.JObj? ==> r != [] && r[0] == '{'
  {
    if v.JStr? then v.s else Serialize(v)
  }

  /** JSON text of a value; object members in ascending key order. */
  function Serialize(v: Json): (r: string)
    ensures v.JArr? ==> r != [] && r[0] == '['
    ensures v.JObj? ==> r != [] && r[0] == '{'
    decreases v, 1
  {
    match v
    case JNull => "null"
    case JBool(b) => BoolText(b)
    case JNum(n) => IntText(n)
    case JStr(s) => Quote(s)
    case JArr(items) => "[" + SerializeItems(v, items) + "]"
    case JObj(m) => "{" + SerializeMembers(v, m, SortedKeys(m.Keys)) + "}"
  }

  function SerializeItems(parent: Json, items: seq<Json>): string
    requires forall i :: 0 <= i < |items| ==> items[i] < parent
    decreases parent, 0, |items|
  {
    if items == [] then ""
    else
      var last := Serialize(items[|items| - 1]);
      if |items| == 1 then last else SerializeItems(parent, items[..|items| - 1]) + "," + last
  }

  function SerializeMembers(parent: Json, m: map<string, Json>, keys: seq<string>): string
    requires parent == JObj(m) && forall i :: 0 <= i < |keys| ==> keys[i] in m
    decreases parent, 0, |keys|
  {
    if keys == [] then ""
    else
      var k := keys[|keys| - 1];
      var member := Quote(k) + ":" + Serialize(m[k]);
      if |keys| == 1 then member else SerializeMembers(parent, m, keys[..|keys| - 1]) + "," + member
  }

  /** JSONObject.quote: escapes quote, backslash, "</" and control characters. */
  function Quote(s: string): string
  {
    "\"" + QuoteBody(s, ' ') + "\""
  }

  function QuoteBody(s: string, before: char): string
  {
    if s == [] then ""
    else EscapeChar(s[0], before) + QuoteBody(s[1..], s[0])
  }

  function HexDigit(d: nat): char
    requires d < 16
  {
    if d < 10 then (48 + d) as char else (87 + d) as char
  }

  function EscapeChar(c: char, before: char): string
  {
    if c == '\\' || c == '"' then ['\\', c]
    else if c == '/' && before == '<' then ['\\', c]
    else if c == '\U{0008}' then "\\b"
    else if c == '\t' then "\\t"
    else if c == '\n' then "\\n"
    else if c == '\U{000C}' then "\\f"
    else if c == '\r' then "\\r"
    else if c < ' ' || ('\U{0080}' <= c < '\U{00A0}') || ('\U{2000}' <= c < '\U{2100}') then
      var n := c as int;
      "\\u" + [HexDigit(n / 4096), HexDigit(n / 256 % 16), HexDigit(n / 16 % 16), HexDigit(n % 16)]
    else [c]
  }

  // ---------------------------------------------------------------- key order

  predicate IsLeast(k: string, keys: set<string>)
  {
    k in keys && forall j :: j in keys ==> LexLe(k, j)
  }

  lemma {:induction false} LeastExists(keys: set<string>)
    requires keys != {}
    ensures exists k :: IsLeast(k, keys)
    decreases |keys|
  {
    var x :| x in keys;
    if keys == {x} {
      LexLeReflexive(x);
      assert IsLeast(x, keys);
    } else {
      var rest := keys - {x};
      LeastExists(rest);
      var m :| IsLeast(m, rest);
      LexLeTotal(x, m);
      if LexLe(x, m) {
        LexLeReflexive(x);
        forall j | j in keys ensures LexLe(x, j) {
          if j != x { LexLeTransitive(x, m, j); }
        }
        assert IsLeast(x, keys);
      } else {
        assert IsLeast(m, keys);
      }
    }
  }

  lemma LeastUnique(keys: set<string>)
    ensures forall a, b :: IsLeast(a, keys) && IsLeast(b, keys) ==> a == b
  {
    forall a, b | IsLeast(a, keys) && IsLeast(b, keys) ensures a == b {
      LexLeAntisymmetric(a, b);
    }
  }

  function Least(keys: set<string>): (k: string)
    requires keys != {}
    ensures IsLeast(k, keys)
  {
    LeastExists(keys);
    LeastUnique(keys);
    var k :| IsLeast(k, keys); k
  }

  /** The keys in ascending code-point order (LexLe). */
  function SortedKeys(keys: set<string>): (r: seq<string>)
    ensures forall i :: 0 <= i < |r| ==> r[i] in keys
    ensures forall k :: k in keys ==> k in r
    ensures |r| == |keys|
    ensures forall i, j :: 0 <= i < j < |r| ==> r[i] != r[j]
    decreases |keys|
  {
    if keys == {} then []
    else
      var k := Least(keys);
      [k] + SortedKeys(keys - {k})
  }
}
