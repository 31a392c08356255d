/**
 * String helpers with the semantics of the Java and Apache Commons calls the
 * updater relies on: String.trim, Character.isWhitespace, StringUtils.substring*,
 * Integer.toString / Integer.parseInt / NumberUtils.toInt, and String.compareTo
 * on code points rather than UTF-16 units.
 * A Java null string is `None`.
 */
module Text {
  import opened Wrappers

  // ---------------------------------------------------------------- whitespace

  /** Character.isWhitespace: space separators except the no-break ones, and the ASCII controls. */
  predicate IsWhitespace(c: char)
  {
    c == ' ' || c == '\t' || c == '\n' || c == '\U{000B}' || c == '\U{000C}' || c == '\r'
    || ('\U{001C}' <= c <= '\U{001F}')
    || c == '\U{1680}' || ('\U{2000}' <= c <= '\U{2006}') || ('\U{2008}' <= c <= '\U{200A}')
    || c == '\U{2028}' || c == '\U{2029}' || c == '\U{205F}' || c == '\U{3000}'
  }

  /** StringUtils.isBlank on a non-null string. */
  predicate Blank(s: string)
  {
    forall i :: 0 <= i < |s| ==> IsWhitespace(s[i])
  }

  /** StringUtils.isBlank, where null is blank. */
  predicate BlankOpt(s: Option<string>)
  {
    s.None? || Blank(s.value)
  }

  /** StringUtils.isEmpty, where null is empty. */
  predicate EmptyOpt(s: Option<string>)
  {
    s.None? || s.value == ""
  }

  /** String.trim drops every leading and trailing character at or below U+0020: the first kept index. */
  function TrimStartIndex(s: string, from: nat): (k: nat)
    requires from <= |s|
    ensures from <= k <= |s|
    ensures forall i :: from <= i < k ==> s[i] <= ' '
    ensures k < |s| ==> s[k] > ' '
    decreases |s| - from
  {
    if from < |s| && s[from] <= ' ' then TrimStartIndex(s, from + 1) else from
  }

  /** The end of the kept part of `s[lo..hi]`. */
  function TrimEndIndex(s: string, lo: nat, hi: nat): (k: nat)
    requires lo <= hi <= |s|
    ensures lo <= k <= hi
    ensures forall i :: k <= i < hi ==> s[i] <= ' '
    ensures k > lo ==> s[k - 1] > ' '
    decreases hi - lo
  {
    if lo < hi && s[hi - 1] <= ' ' then TrimEndIndex(s, lo, hi - 1) else hi
  }

  function Trim(s: string): (r: string)
    ensures r == [] || (r[0] > ' ' && r[|r| - 1] > ' ')
  {
    var a := TrimStartIndex(s, 0);
    s[a..TrimEndIndex(s, a, |s|)]
  }

  /** StringUtils.trimToNull. */
  function TrimToNull(s: Option<string>): (r: Option<string>)
    ensures r.Some? ==> r.value != [] && r.value[0] > ' ' && r.value[|r.value| - 1] > ' '
  {
    if s.None? || Trim(s.value) == "" then None else Some(Trim(s.value))
  }

  /** How a Java string concatenation or StringBuilder.append prints a possibly null string. */
  function NullText(s: Option<string>): string
  {
    if s.None? then "null" else s.value
  }

  // ---------------------------------------------------------------- searching

  predicate At(s: string, p: string, i: int)
  {
    0 <= i && i + |p| <= |s| && s[i..i + |p|] == p
  }

  predicate StartsWith(s: string, p: string)
  {
    At(s, p, 0)
  }

  /** First occurrence of `p` in `s` at or after `from` (String.indexOf(p, from)). */
  function IndexOfFrom(s: string, p: string, from: nat): (r: Option<nat>)
    ensures r.Some? ==> from <= r.value && At(s, p, r.value)
    ensures r.Some? ==> forall j :: from <= j < r.value ==> !At(s, p, j)
    ensures r.None? ==> forall j :: from <= j ==> !At(s, p, j)
    decreases |s| - from
  {
    if from + |p| > |s| then None
    else if s[from..from + |p|] == p then Some(from)
    else IndexOfFrom(s, p, from + 1)
  }

  function IndexOf(s: string, p: string): Option<nat>
  {
    IndexOfFrom(s, p, 0)
  }

  predicate Contains(s: string, p: string)
  {
    IndexOf(s, p).Some?
  }

  /** Last occurrence of `p` in `s` at or before `i`. */
  function LastIndexOfUpTo(s: string, p: string, i: int): (r: Option<nat>)
    ensures r.Some? ==> r.value <= i && At(s, p, r.value)
    ensures r.Some? ==> forall j :: r.value < j <= i ==> !At(s, p, j)
    ensures r.None? ==> forall j :: j <= i ==> !At(s, p, j)
    decreases i + 1
  {
    if i < 0 then None
    else if At(s, p, i) then Some(i)
    else LastIndexOfUpTo(s, p, i - 1)
  }

  /** String.lastIndexOf. */
  function LastIndexOf(s: string, p: string): (r: Option<nat>)
    ensures r.Some? ==> At(s, p, r.value) && forall j :: r.value < j ==> !At(s, p, j)
    ensures r.None? ==> forall j :: !At(s, p, j)
  {
    LastIndexOfUpTo(s, p, |s| - |p|)
  }

  /** StringUtils.substringBefore on a non-null string. */
  function SubstringBefore(s: string, sep: string): (r: string)
    ensures sep != "" && !Contains(s, sep) ==> r == s
    ensures StartsWith(s, r)
  {
    if s == "" then s
    else if sep == "" then ""
    else match IndexOf(s, sep)
      case None => s
      case Some(i) => s[..i]
  }

  /** StringUtils.substringAfter on a non-null string. */
  function SubstringAfter(s: string, sep: string): (r: string)
    ensures !Contains(s, sep) ==> r == ""
    ensures |r| <= |s| && r == s[|s| - |r|..]
  {
    if s == "" then s
    else match IndexOf(s, sep)
      case None => ""
      case Some(i) => s[i + |sep|..]
  }

  /** StringUtils.substringAfterLast: "" when the separator is missing, empty or ends the string. */
  function SubstringAfterLast(s: string, sep: string): (r: string)
    ensures sep != "" ==> !Contains(r, sep)
    ensures |r| <= |s| && r == s[|s| - |r|..]
    ensures sep == "" || !Contains(s, sep) ==> r == ""
    ensures sep != "" && Contains(s, sep) ==>
      |r| + |sep| <= |s| && At(s, sep, |s| - |r| - |sep|) && forall j :: |s| - |r| - |sep| < j ==> !At(s, sep, j)
  {
    if s == "" || sep == "" then ""
    else match LastIndexOf(s, sep)
      case None => ""
      case Some(i) =>
        if i == |s| - |sep| then ""
        else
          var r := s[i + |sep|..];
          assert forall j :: At(r, sep, j) ==> At(s, sep, i + |sep| + j) by {
            forall j | At(r, sep, j) ensures At(s, sep, i + |sep| + j) {
              assert s[i + |sep| + j..i + |sep| + j + |sep|] == r[j..j + |sep|];
            }
          }
          r
  }

  /** StringUtils.substringBetween(s, open, close): null unless both delimiters are found. */
  function SubstringBetween(s: string, open: string, close: string): (r: Option<string>)
    ensures r.Some? ==> exists i :: At(s, open, i) && At(s, r.value + close, i + |open|)
  {
    match IndexOf(s, open)
    case None => None
    case Some(start) =>
      match IndexOfFrom(s, close, start + |open|)
      case None => None
      case Some(end) =>
        assert s[start + |open|..end] + close == s[start + |open|..end + |close|];
        Some(s[start + |open|..end])
  }

  /** String.join. */
  function Join(parts: seq<string>, sep: string): string
  {
    if |parts| == 0 then ""
    else if |parts| == 1 then parts[0]
    else Join(parts[..|parts| - 1], sep) + sep + parts[|parts| - 1]
  }

  /** Concatenation of a sequence of strings. */
  function Concat(parts: seq<string>): string
  {
    if |parts| == 0 then "" else Concat(parts[..|parts| - 1]) + parts[|parts| - 1]
  }

  /** String.replaceAll / replace of one character by another everywhere. */
  function ReplaceChar(s: string, from: char, to: char): (r: string)
    ensures |r| == |s|
    ensures forall i :: 0 <= i < |s| ==> r[i] == (if s[i] == from then to else s[i])
  {
    seq(|s|, i requires 0 <= i < |s| => if s[i] == from then to else s[i])
  }

  /** String.replaceFirst with a one-character literal pattern and an empty replacement. */
  function RemoveFirst(s: string, c: char): (r: string)
    ensures c !in s ==> r == s
    ensures c in s ==> |r| == |s| - 1
  {
    if s == [] then []
    else if s[0] == c then s[1..]
    else [s[0]] + RemoveFirst(s[1..], c)
  }

  /** Upper-casing, restricted to the ASCII letters. */
  function UpperCase(s: string): (r: string)
    ensures |r| == |s|
    ensures forall i :: 0 <= i < |s| ==> r[i] == (if 'a' <= s[i] <= 'z' then (s[i] as int - 32) as char else s[i])
  {
    if s == [] then [] else UpperCase(s[..|s| - 1]) + [if 'a' <= s[|s| - 1] <= 'z' then (s[|s| - 1] as int - 32) as char else s[|s| - 1]]
  }

  /** String.equalsIgnoreCase, restricted to the ASCII letters. */
  predicate EqualsIgnoreCase(a: string, b: string)
  {
    UpperCase(a) == UpperCase(b)
  }

  // ---------------------------------------------------------------- decimal text

  predicate IsDigit(c: char) { '0' <= c <= '9' }

  function DigitChar(d: nat): char
    requires d < 10
  {
    (48 + d) as char
  }

  /** The decimal digits of a natural number, without leading zeros. */
  function Digits(n: nat): (r: string)
    ensures |r| >= 1 && AllDigits(r)
    ensures n < 10 <==> |r| == 1
  {
    if n < 10 then [DigitChar(n)] else Digits(n / 10) + [DigitChar(n % 10)]
  }

  /** Integer.toString / Long.toString. */
  function IntText(n: int): string
  {
    if n < 0 then "-" + Digits(-n) else Digits(n)
  }

  predicate AllDigits(s: string)
  {
    forall i :: 0 <= i < |s| ==> IsDigit(s[i])
  }

  /** The value of a string of decimal digits. */
  function Value(s: string): nat
    requires AllDigits(s)
  {
    if s == [] then 0
    else
      assert IsDigit(s[|s| - 1]);
      Value(s[..|s| - 1]) * 10 + (s[|s| - 1] as int - 48)
  }

  lemma {:induction false} ValueOfDigits(n: nat)
    ensures Value(Digits(n)) == n
  {
    if n >= 10 {
      var d := Digits(n);
      assert d[..|d| - 1] == Digits(n / 10);
      ValueOfDigits(n / 10);
    }
  }

  /** A run of `z` zero digits. */
  function Zeros(z: nat): (r: string)
    ensures |r| == z && forall i :: 0 <= i < z ==> r[i] == '0'
  {
    if z == 0 then [] else Zeros(z - 1) + ['0']
  }

  /** Leading zeros do not change a value. */
  lemma {:induction false} ValueOfZeroPadded(z: nat, s: string)
    requires AllDigits(s)
    ensures var t := Zeros(z) + s; AllDigits(t) && Value(t) == Value(s)
  {
    var t := Zeros(z) + s;
    if s == [] {
      ZerosValue(z);
      assert t == Zeros(z);
    } else {
      ValueOfZeroPadded(z, s[..|s| - 1]);
      assert t[..|t| - 1] == Zeros(z) + s[..|s| - 1];
    }
  }

  lemma {:induction false} ZerosValue(z: nat)
    ensures Value(Zeros(z)) == 0
  {
    if z > 0 {
      ZerosValue(z - 1);
      assert Zeros(z)[..z - 1] == Zeros(z - 1);
    }
  }

  /** `n` printed with at least `w` digits, padded with zeros (String.format("%0wd"), n >= 0). */
  function ZeroPad(n: nat, w: nat): (r: string)
    ensures AllDigits(r)
    ensures |r| == if |Digits(n)| < w then w else |Digits(n)|
  {
    var d := Digits(n);
    if |d| < w then Zeros(w - |d|) + d else d
  }

  lemma ValueOfZeroPad(n: nat, w: nat)
    ensures Value(ZeroPad(n, w)) == n
  {
    var d := Digits(n);
    assert Value(d) == n by {
      ValueOfDigits(n);
    }
    if |d| < w {
      var z := w - |d|;
      assert ZeroPad(n, w) == Zeros(z) + d;
      assert Value(Zeros(z) + d) == Value(d) by {
        ValueOfZeroPadded(z, d);
      }
    }
  }

  /** Parsing of an optionally signed decimal integer within [lo, hi] (Integer.parseInt, Long.parseLong). */
  function ParseIntIn(s: string, lo: int, hi: int): (r: Option<int>)
    ensures r.Some? ==> lo <= r.value <= hi
  {
    if s == [] then None
    else
      var neg := s[0] == '-';
      var digits := if s[0] == '-' || s[0] == '+' then s[1..] else s;
      if digits == [] || !AllDigits(digits) then None
      else
        var v: int := if neg then -(Value(digits) as int) else Value(digits);
        if lo <= v <= hi then Some(v) else None
  }

  const IntMin: int := -0x8000_0000
  const IntMax: int := 0x7FFF_FFFF
  const LongMin: int := -0x8000_0000_0000_0000
  const LongMax: int := 0x7FFF_FFFF_FFFF_FFFF

  /** Integer.parseInt: None where Java throws NumberFormatException. */
  function ParseInt(s: string): Option<int>
  {
    ParseIntIn(s, IntMin, IntMax)
  }

  /** NumberUtils.toInt(s): the parsed value, or 0 for null and unparsable text. */
  function ToInt(s: Option<string>): int
  {
    if s.None? then 0 else ParseInt(s.value).GetOr(0)
  }

  /** NumberUtils.toLong(s): as ToInt with the 64-bit range. */
  function ToLong(s: string): int
  {
    ParseIntIn(s, LongMin, LongMax).GetOr(0)
  }

  /** Integer.parseInt reads back what Integer.toString printed. */
  lemma ParseIntText(n: int, lo: int, hi: int)
    requires lo <= n <= hi
    ensures ParseIntIn(IntText(n), lo, hi) == Some(n)
  {
    var t := IntText(n);
    if n < 0 {
      ValueOfDigits(-n);
      assert t[0] == '-' && t[1..] == Digits(-n);
    } else {
      ValueOfDigits(n);
      assert IsDigit(t[0]);
    }
  }

  // ---------------------------------------------------------------- booleans

  /** BooleanUtils.toBoolean(String): "true", "on", "yes", "y" or "t" in any case. */
  predicate ToBoolean(s: Option<string>)
  {
    s.Some? && UpperCase(s.value) in {"TRUE", "ON", "YES", "Y", "T"}
  }

  function BoolText(b: bool): string
  {
    if b then "true" else "false"
  }

  // ---------------------------------------------------------------- ordering

  /**
   * Lexicographic order on code points, a prefix first. This is
   * String.compareTo(a, b) <= 0 except where a and b first differ at a
   * character beyond U+FFFF against one in U+E000 to U+FFFF.
   */
  predicate LexLe(a: string, b: string)
  {
    if a == [] then true
    else if b == [] then false
    else if a[0] != b[0] then a[0] < b[0]
    else LexLe(a[1..], b[1..])
  }

  predicate LexLess(a: string, b: string)
  {
    LexLe(a, b) && a != b
  }

  lemma {:induction false} LexLeTotal(a: string, b: string)
    ensures LexLe(a, b) || LexLe(b, a)
  {
    if a != [] && b != [] && a[0] == b[0] { LexLeTotal(a[1..], b[1..]); }
  }

  lemma {:induction false} LexLeAntisymmetric(a: string, b: string)
    requires LexLe(a, b) && LexLe(b, a)
    ensures a == b
  {
    if a != [] && b != [] {
      LexLeAntisymmetric(a[1..], b[1..]);
      assert a == [a[0]] + a[1..] && b == [b[0]] + b[1..];
    }
  }

  lemma {:induction false} LexLeTransitive(a: string, b: string, c: string)
    requires LexLe(a, b) && LexLe(b, c)
    ensures LexLe(a, c)
  {
    if a != [] && b != [] && c != [] && a[0] == b[0] && b[0] == c[0] {
      LexLeTransitive(a[1..], b[1..], c[1..]);
    }
  }

  lemma {:induction false} LexLeReflexive(a: string)
    ensures LexLe(a, a)
  {
    if a != [] { LexLeReflexive(a[1..]); }
  }
}
