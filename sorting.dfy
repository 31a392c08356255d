/**
 * Sorting by a string key in code-point order (LexLe), as Arrays.sort and
 * List.sort with a comparator do it, with code points in place of the UTF-16
 * units String.compareTo compares: the result is sorted and a permutation of the input,
 * and for a sequence of strings these two facts determine it.
 */
module Sorting {
  import opened Text

  predicate SortedBy<T>(s: seq<T>, key: T -> string)
  {
    forall i, j :: 0 <= i < j < |s| ==> LexLe(key(s[i]), key(s[j]))
  }

  function Insert<T>(x: T, s: seq<T>, key: T -> string): (r: seq<T>)
    ensures multiset(r) == multiset(s) + multiset{x}
  {
    if s == [] then [x]
    else if LexLe(key(x), key(s[0])) then [x] + s
    else
      assert s == [s[0]] + s[1..];
      [s[0]] + Insert(x, s[1..], key)
  }

  /** Insertion sort; stable, so entries with equal keys keep their order. */
  function SortBy<T>(s: seq<T>, key: T -> string): seq<T>
  {
    if s == [] then [] else Insert(s[0], SortBy(s[1..], key), key)
  }

  lemma {:induction false} InsertSorted<T>(x: T, s: seq<T>, key: T -> string)
    requires SortedBy(s, key)
    ensures SortedBy(Insert(x, s, key), key)
  {
    if s != [] && !LexLe(key(x), key(s[0])) {
      LexLeTotal(key(x), key(s[0]));
      InsertSorted(x, s[1..], key);
      forall y | y in s[1..] ensures LexLe(key(s[0]), key(y)) {
        var j :| 0 <= j < |s[1..]| && s[1..][j] == y;
        assert s[j + 1] == y;
      }
      InsertBounded(x, s[1..], key, key(s[0]));
      ConsSorted(s[0], Insert(x, s[1..], key), key);
    } else if s != [] {
      forall y | y in s ensures LexLe(key(x), key(y)) {
        var j :| 0 <= j < |s| && s[j] == y;
        if j > 0 { LexLeTransitive(key(x), key(s[0]), key(y)); }
      }
      ConsSorted(x, s, key);
    }
  }

  /** A lower bound of x and of every element of s bounds every element of the insertion. */
  lemma InsertBounded<T>(x: T, s: seq<T>, key: T -> string, lo: string)
    requires LexLe(lo, key(x))
    requires forall y :: y in s ==> LexLe(lo, key(y))
    ensures forall y :: y in Insert(x, s, key) ==> LexLe(lo, key(y))
  {
    forall y | y in Insert(x, s, key) ensures LexLe(lo, key(y)) {
      assert y in multiset(Insert(x, s, key));
      if y != x {
        assert y in multiset(s);
      }
    }
  }

  /** A sorted tail headed by a lower bound of all its elements is sorted. */
  lemma ConsSorted<T>(h: T, t: seq<T>, key: T -> string)
    requires SortedBy(t, key)
    requires forall y :: y in t ==> LexLe(key(h), key(y))
    ensures SortedBy([h] + t, key)
  {
    var r := [h] + t;
    forall i, j | 0 <= i < j < |r| ensures LexLe(key(r[i]), key(r[j])) {
      if i == 0 { assert r[j] in t; } else { assert r[i] == t[i - 1] && r[j] == t[j - 1]; }
    }
  }

  lemma {:induction false} SortByCorrect<T>(s: seq<T>, key: T -> string)
    ensures SortedBy(SortBy(s, key), key)
    ensures multiset(SortBy(s, key)) == multiset(s)
  {
    if s != [] {
      SortByCorrect(s[1..], key);
      InsertSorted(s[0], SortBy(s[1..], key), key);
      assert s == [s[0]] + s[1..];
    }
  }

  predicate SortedStrings(s: seq<string>)
  {
    forall i, j :: 0 <= i < j < |s| ==> LexLe(s[i], s[j])
  }

  lemma SortedByIdentity(s: seq<string>)
    ensures SortedBy(s, (x: string) => x) <==> SortedStrings(s)
  {
  }

  lemma HeadIsLeast(a: seq<string>, x: string)
    requires SortedStrings(a) && x in a
    ensures LexLe(a[0], x)
  {
    var j :| 0 <= j < |a| && a[j] == x;
    if j == 0 { LexLeReflexive(x); }
  }

  lemma SortedHeadsEqual(a: seq<string>, b: seq<string>)
    requires SortedStrings(a) && SortedStrings(b) && multiset(a) == multiset(b) && a != []
    ensures b != [] && a[0] == b[0]
  {
    assert |a| == |multiset(a)| == |multiset(b)| == |b|;
    assert a[0] in multiset(b) && b[0] in multiset(a);
    HeadIsLeast(b, a[0]);
    HeadIsLeast(a, b[0]);
    LexLeAntisymmetric(a[0], b[0]);
  }

  lemma TailsPermutation(a: seq<string>, b: seq<string>)
    requires multiset(a) == multiset(b) && a != [] && b != [] && a[0] == b[0]
    ensures multiset(a[1..]) == multiset(b[1..])
  {
    assert a == [a[0]] + a[1..] && b == [b[0]] + b[1..];
    calc {
      multiset(a[1..]);
      multiset(a) - multiset{a[0]};
      multiset(b) - multiset{b[0]};
      multiset(b[1..]);
    }
  }

  lemma TailSorted(a: seq<string>)
    requires SortedStrings(a) && a != []
    ensures SortedStrings(a[1..])
  {
    var a' := a[1..];
    forall i, j | 0 <= i < j < |a'| ensures LexLe(a'[i], a'[j]) { assert a'[i] == a[i + 1] && a'[j] == a[j + 1]; }
  }

  /** Two sorted permutations of the same lines are the same lines: the sort is determined. */
  lemma {:induction false} SortedPermutationUnique(a: seq<string>, b: seq<string>)
    requires SortedStrings(a) && SortedStrings(b) && multiset(a) == multiset(b)
    ensures a == b
  {
    if a == [] {
      assert |b| == |multiset(b)| == 0;
    } else {
      SortedHeadsEqual(a, b);
      TailsPermutation(a, b);
      TailSorted(a);
      TailSorted(b);
      SortedPermutationUnique(a[1..], b[1..]);
      assert a == [a[0]] + a[1..] && b == [b[0]] + b[1..];
    }
  }
}
