/**
 * The "extras" list of a catalog record: a JSON array of {"key", "value"}
 * objects. setExtraValue overwrites the LAST entry carrying the key, or
 * appends a new entry; getExtrasValue answers from the FIRST entry carrying
 * the key. With at most one entry per key the two agree.
 */
module Extras {
  import opened Wrappers
  import opened Json

  /** The entry setExtraValue writes. */
  function Entry(key: string, value: string): Json
  {
    JObj(map["key" := JStr(key), "value" := JStr(value)])
  }

  /** Entry e is an object whose "key" is the string k. */
  predicate HasKey(e: Json, k: string)
  {
    e.JObj? && "key" in e.fields && e.fields["key"] == JStr(k)
  }

  /** The cast to JSONObject and getString("key") on one entry; either may throw. */
  function EntryKey(e: Json): (r: Result<string>)
    ensures r.Ok? <==> e.JObj? && "key" in e.fields && e.fields["key"].JStr?
    ensures r.Ok? ==> HasKey(e, r.value)
  {
    if !e.JObj? then Err("class cast: extras entry is not a JSONObject") else GetString(e.fields, "key")
  }

  /** A record setExtraValue accepts: an extras array whose every entry has a string key. */
  predicate WellFormed(record: Object)
  {
    "extras" in record && record["extras"].JArr?
    && forall i :: 0 <= i < |record["extras"].items| ==> EntryKey(record["extras"].items[i]).Ok?
  }

  /** The entries of a well-formed record. */
  function Items(record: Object): seq<Json>
    requires "extras" in record && record["extras"].JArr?
  {
    record["extras"].items
  }

  /** No two entries carry key k. */
  predicate AtMostOnce(record: Object, k: string)
    requires "extras" in record && record["extras"].JArr?
  {
    Once(Items(record), k)
  }

  predicate Once(items: seq<Json>, k: string)
  {
    forall i, j :: 0 <= i < |items| && 0 <= j < |items| && HasKey(items[i], k) && HasKey(items[j], k) ==> i == j
  }

  /** The last position of k in keys. */
  function LastOf(keys: seq<string>, k: string): (r: Option<nat>)
    ensures r.Some? ==> r.value < |keys| && keys[r.value] == k && forall j :: r.value < j < |keys| ==> keys[j] != k
    ensures r.None? <==> forall j :: 0 <= j < |keys| ==> keys[j] != k
  {
    if keys == [] then None
    else if keys[|keys| - 1] == k then Some(|keys| - 1)
    else LastOf(keys[..|keys| - 1], k)
  }

  /** The last position after one more key. */
  lemma LastOfSnoc(keys: seq<string>, x: string, k: string)
    ensures LastOf(keys + [x], k) == if x == k then Some(|keys|) else LastOf(keys, k)
  {
    assert (keys + [x])[..|keys|] == keys;
  }

  /** The record as setExtraValue(record, key, value) leaves it, or the exception it throws. */
  function SetExtra(record: Object, key: string, value: string): Result<Object>
  {
    var extras :- GetArray(record, "extras");
    var keys :- MapAll(extras, EntryKey);
    MapAllEntries(extras, EntryKey);
    match LastOf(keys, key)
    case Some(i) => Ok(record["extras" := JArr(extras[i := Entry(key, value)])])
    case None => Ok(record["extras" := JArr(extras + [Entry(key, value)])])
  }

  /** The keys of a well-formed record's entries, in order. */
  lemma KeysOfWellFormed(record: Object)
    requires WellFormed(record)
    ensures MapAll(Items(record), EntryKey).Ok?
    ensures |MapAll(Items(record), EntryKey).value| == |Items(record)|
    ensures forall i :: 0 <= i < |Items(record)| ==> HasKey(Items(record)[i], MapAll(Items(record), EntryKey).value[i])
  {
    MapAllEntries(Items(record), EntryKey);
  }

  /** setExtraValue throws exactly when the record is not well formed. */
  lemma SetExtraSucceeds(record: Object, key: string, value: string)
    ensures SetExtra(record, key, value).Ok? <==> WellFormed(record)
  {
    if "extras" in record && record["extras"].JArr? {
      MapAllEntries(Items(record), EntryKey);
    }
  }

  /** With an entry for the key, exactly the last such entry is replaced; the length and every other entry stay. */
  lemma SetExtraReplacesLast(record: Object, key: string, value: string, i: nat)
    requires WellFormed(record)
    requires i < |Items(record)| && HasKey(Items(record)[i], key)
    requires forall j :: i < j < |Items(record)| ==> !HasKey(Items(record)[j], key)
    ensures SetExtra(record, key, value) == Ok(record["extras" := JArr(Items(record)[i := Entry(key, value)])])
  {
    KeysOfWellFormed(record);
  }

  /** Without an entry for the key, exactly one entry is appended. */
  lemma SetExtraAppends(record: Object, key: string, value: string)
    requires WellFormed(record)
    requires forall j :: 0 <= j < |Items(record)| ==> !HasKey(Items(record)[j], key)
    ensures SetExtra(record, key, value) == Ok(record["extras" := JArr(Items(record) + [Entry(key, value)])])
  {
    KeysOfWellFormed(record);
  }

  /** The value of the first entry carrying the key; entries before it must have string keys. */
  function FirstValue(extras: seq<Json>, key: string): Result<Option<string>>
  {
    if extras == [] then Ok(None)
    else
      var k :- EntryKey(extras[0]);
      if k == key then
        var v :- GetString(extras[0].fields, "value");
        Ok(Some(v))
      else FirstValue(extras[1..], key)
  }

  /** getExtrasValue(record, key): the first match's value, None when no entry has the key. */
  function GetExtra(record: Object, key: string): Result<Option<string>>
  {
    var extras :- GetArray(record, "extras");
    FirstValue(extras, key)
  }

  /** The lookup answers from the first entry with the key. */
  lemma {:induction false} FirstValueIsFirst(extras: seq<Json>, key: string, i: nat)
    requires i < |extras| && HasKey(extras[i], key)
    requires forall j :: 0 <= j < i ==> EntryKey(extras[j]).Ok? && !HasKey(extras[j], key)
    ensures FirstValue(extras, key) == (match GetString(extras[i].fields, "value")
      case Ok(v) => Ok(Some(v))
      case Err(m) => Err(m))
  {
    if i > 0 {
      FirstValueIsFirst(extras[1..], key, i - 1);
    }
  }

  /** With every entry keyed and none carrying the key, the lookup answers None. */
  lemma {:induction false} FirstValueMissing(extras: seq<Json>, key: string)
    requires forall j :: 0 <= j < |extras| ==> EntryKey(extras[j]).Ok? && !HasKey(extras[j], key)
    ensures FirstValue(extras, key) == Ok(None)
  {
    if extras != [] {
      FirstValueMissing(extras[1..], key);
    }
  }

  /** Replacing a keyed entry by one with the same key other than k leaves the lookup of k alone. */
  lemma {:induction false} FirstValueReplaceOther(extras: seq<Json>, i: nat, e: Json, key: string, k: string)
    requires i < |extras| && HasKey(extras[i], key) && HasKey(e, key) && key != k
    ensures FirstValue(extras[i := e], k) == FirstValue(extras, k)
  {
    if i == 0 {
      assert extras[i := e][1..] == extras[1..];
    } else {
      var k0 := EntryKey(extras[0]);
      if k0.Ok? && k0.value != k {
        assert extras[i := e][1..] == extras[1..][i - 1 := e];
        FirstValueReplaceOther(extras[1..], i - 1, e, key, k);
      }
    }
  }

  /** Appending an entry with a key other than k leaves the lookup of k alone. */
  lemma {:induction false} FirstValueAppendOther(extras: seq<Json>, e: Json, key: string, k: string)
    requires forall j :: 0 <= j < |extras| ==> EntryKey(extras[j]).Ok?
    requires HasKey(e, key) && key != k
    ensures FirstValue(extras + [e], k) == FirstValue(extras, k)
  {
    if extras == [] {
      assert [e][1..] == [];
    } else {
      assert (extras + [e])[1..] == extras[1..] + [e];
      FirstValueAppendOther(extras[1..], e, key, k);
    }
  }

  /** After setExtraValue the record stays well formed, and no key gains a second entry. */
  lemma SetExtraKeepsShape(record: Object, key: string, value: string)
    requires WellFormed(record)
    ensures SetExtra(record, key, value).Ok?
    ensures WellFormed(SetExtra(record, key, value).value)
    ensures forall k :: AtMostOnce(record, k) ==> AtMostOnce(SetExtra(record, key, value).value, k)
  {
    KeysOfWellFormed(record);
    var items := Items(record);
    var keys := MapAll(items, EntryKey).value;
    var out := Items(SetExtra(record, key, value).value);
    var e := Entry(key, value);
    match LastOf(keys, key)
    case Some(i) =>
      assert out == items[i := e];
      forall k | Once(items, k) ensures Once(out, k) {
        OnceAfterReplace(items, i, e, key, k);
      }
    case None =>
      assert out == items + [e];
      forall k | Once(items, k) ensures Once(out, k) {
        OnceAfterAppend(items, e, key, k);
      }
  }

  /** Replacing an entry by one with the same key keeps every key's entries at most one. */
  lemma OnceAfterReplace(items: seq<Json>, i: nat, e: Json, key: string, k: string)
    requires i < |items| && HasKey(items[i], key) && HasKey(e, key) && Once(items, k)
    ensures Once(items[i := e], k)
  {
    var out := items[i := e];
    forall a, b | 0 <= a < |out| && 0 <= b < |out| && HasKey(out[a], k) && HasKey(out[b], k) ensures a == b {
      assert HasKey(items[a], k) && HasKey(items[b], k);
    }
  }

  /** Appending the first entry with its key keeps every key's entries at most one. */
  lemma OnceAfterAppend(items: seq<Json>, e: Json, key: string, k: string)
    requires forall j :: 0 <= j < |items| ==> !HasKey(items[j], key)
    requires HasKey(e, key) && Once(items, k)
    ensures Once(items + [e], k)
  {
    var out := items + [e];
    forall a, b | 0 <= a < |out| && 0 <= b < |out| && HasKey(out[a], k) && HasKey(out[b], k) ensures a == b {
      if a < |items| && b < |items| {
        assert HasKey(items[a], k) && HasKey(items[b], k);
      }
    }
  }

  /** With at most one entry for the key, getExtrasValue reads back what setExtraValue wrote. */
  lemma GetAfterSet(record: Object, key: string, value: string)
    requires WellFormed(record) && AtMostOnce(record, key)
    ensures SetExtra(record, key, value).Ok?
    ensures GetExtra(SetExtra(record, key, value).value, key) == Ok(Some(value))
  {
    KeysOfWellFormed(record);
    var items := Items(record);
    var keys := MapAll(items, EntryKey).value;
    var out := Items(SetExtra(record, key, value).value);
    match LastOf(keys, key)
    case Some(i) =>
      assert out == items[i := Entry(key, value)];
      forall j | 0 <= j < i ensures EntryKey(out[j]).Ok? && !HasKey(out[j], key) {
        assert out[j] == items[j];
      }
      FirstValueIsFirst(out, key, i);
    case None =>
      assert out == items + [Entry(key, value)];
      forall j | 0 <= j < |items| ensures EntryKey(out[j]).Ok? && !HasKey(out[j], key) {
        assert out[j] == items[j] && keys[j] != key;
      }
      FirstValueIsFirst(out, key, |items|);
  }

  /** setExtraValue of one key does not change what getExtrasValue answers for another. */
  lemma GetAfterSetOther(record: Object, key: string, value: string, k: string)
    requires WellFormed(record) && key != k
    ensures SetExtra(record, key, value).Ok?
    ensures GetExtra(SetExtra(record, key, value).value, k) == GetExtra(record, k)
  {
    KeysOfWellFormed(record);
    var items := Items(record);
    var keys := MapAll(items, EntryKey).value;
    match LastOf(keys, key)
    case Some(i) =>
      FirstValueReplaceOther(items, i, Entry(key, value), key, k);
    case None =>
      FirstValueAppendOther(items, Entry(key, value), key, k);
  }

  /** A catalog record held by reference, as org.json's JSONObject is, so that setExtraValue changes it in place. */
  class Dataset {
    var record: Object

    constructor (record: Object)
      ensures this.record == record
    {
      this.record := record;
    }

    /** setExtraValue: scans every entry for the key, then overwrites the last match or appends. */
    method SetExtraValue(key: string, value: string) returns (r: Result<()>)
      modifies this
      ensures SetExtra(old(record), key, value) == (if r.Ok? then Ok(record) else Err(r.error))
      ensures r.Err? ==> record == old(record)
    {
      var extras :- GetArray(record, "extras");
      var found: Option<nat> := None;
      var i := 0;
      while i < |extras|
        invariant 0 <= i <= |extras|
        invariant record == old(record)
        invariant MapAll(extras[..i], EntryKey).Ok? && |MapAll(extras[..i], EntryKey).value| == i
        invariant found == LastOf(MapAll(extras[..i], EntryKey).value, key)
      {
        var k := EntryKey(extras[i]);
        if k.Err? {
          assert extras[..i + 1][..i] == extras[..i];
          MapAllFailedPrefix(extras, i + 1, EntryKey);
          return Err(k.error);
        }
        ghost var before := MapAll(extras[..i], EntryKey).value;
        MapAllStep(extras, i, EntryKey);
        LastOfSnoc(before, k.value, key);
        if k.value == key {
          found := Some(i);
        }
        i := i + 1;
      }
      assert extras[..i] == extras;
      MapAllEntries(extras, EntryKey);
      var entry := Entry(key, value);
      if found.Some? {
        record := record["extras" := JArr(extras[found.value := entry])];
      } else {
        record := record["extras" := JArr(extras + [entry])];
      }
      return Ok(());
    }

    /** getExtrasValue: the value of the first entry carrying the key, None when there is none. */
    method GetExtrasValue(key: string) returns (r: Result<Option<string>>)
      ensures r == GetExtra(record, key)
    {
      var extras :- GetArray(record, "extras");
      var i := 0;
      while i < |extras|
        invariant 0 <= i <= |extras|
        invariant FirstValue(extras[i..], key) == FirstValue(extras, key)
      {
        assert extras[i..][1..] == extras[i + 1..];
        var k :- EntryKey(extras[i]);
        if k == key {
          var v :- GetString(extras[i].fields, "value");
          return Ok(Some(v));
        }
        i := i + 1;
      }
      return Ok(None);
    }
  }
}
