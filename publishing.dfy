/**
 * What the four publishing strategies of the updater do to the catalog, as
 * functions: the calls they make on the catalog client, in order, and how the
 * strategy ends (true, false, or the exception that escapes it). A call that
 * throws ends the strategy there. The imperative strategies of the Updater
 * class are proved to make exactly these calls.
 */
module Publishing {
  import opened Wrappers
  import opened Text
  import opened Json
  import opened Catalog
  import opened Extras
  import opened Files
  import CkanApi
  import Dates

  /** A date the clock can show. */
  type Day = d: Dates.Date | Dates.Valid(d) witness Dates.Date(1970, 1, 1)

  /**
   * The readings one job takes from its environment: today's date, the
   * current time as ISO_DATE_TIME text, the UUID given to a new dataset's
   * identifier, and the name of the scratch directory.
   */
  datatype Env = Env(today: Day, timeNow: string, identifier: string, scratchName: string)

  // ---------------------------------------------------------------- runs

  /** The calls a piece of a strategy makes and how it ends. */
  datatype Run = Run(calls: seq<Call>, outcome: Result<bool>)

  /** Nothing called, nothing thrown: go on. */
  const Done := Run([], Ok(true))

  /** An exception thrown without a catalog call. */
  function Fail(m: string): Run
  {
    Run([], Err(m))
  }

  /** a, then b, unless a threw. */
  function Then(a: Run, b: Run): Run
  {
    if a.outcome.Err? then a else Run(a.calls + b.calls, b.outcome)
  }

  /** One call whose answer is not needed any further. */
  function Step(c: Client, call: Call): Run
  {
    Run([call], c.Answer(call, true))
  }

  /** A loop of calls, stopped by the first exception. */
  function Steps(c: Client, calls: seq<Call>): Run
    decreases |calls|
  {
    if calls == [] then Done
    else Then(Steps(c, calls[..|calls| - 1]), Step(c, calls[|calls| - 1]))
  }

  /** A computation that may throw but calls nothing. */
  function Check<T>(r: Result<T>): Run
  {
    if r.Err? then Fail(r.error) else Done
  }

  predicate NoFailures(c: Client, calls: seq<Call>)
  {
    forall i :: 0 <= i < |calls| ==> c.Throws(calls[i]).None?
  }

  /** A loop of calls follows its calls: a prefix of them; all of them, ending normally, iff none throws. */
  lemma {:induction false} StepsTrace(c: Client, calls: seq<Call>)
    ensures Follows(c, Steps(c, calls), calls)
    decreases |calls|
  {
    if calls != [] {
      var init := calls[..|calls| - 1];
      var last := calls[|calls| - 1];
      StepsTrace(c, init);
      StepFollows(c, last);
      ThenFollows(c, Steps(c, init), Step(c, last), init, [last]);
      assert init + [last] == calls;
    }
  }

  /** Once a prefix of the loop has thrown, the rest of the calls are never made. */
  lemma {:induction false} StepsFailedPrefix(c: Client, calls: seq<Call>, k: nat)
    requires k <= |calls| && Steps(c, calls[..k]).outcome.Err?
    ensures Steps(c, calls) == Steps(c, calls[..k])
    decreases |calls|
  {
    if k < |calls| {
      var init := calls[..|calls| - 1];
      assert init[..k] == calls[..k];
      StepsFailedPrefix(c, init, k);
    } else {
      assert calls[..k] == calls;
    }
  }

  /** r makes a prefix of the planned calls; exactly all of them, ending normally, iff none of them throws. */
  ghost predicate Follows(c: Client, r: Run, plan: seq<Call>)
  {
    && r.calls <= plan
    && (r.outcome.Ok? <==> NoFailures(c, plan))
    && (NoFailures(c, plan) ==> r == Run(plan, Ok(true)))
  }

  lemma NoFailuresConcat(c: Client, a: seq<Call>, b: seq<Call>)
    ensures NoFailures(c, a + b) <==> NoFailures(c, a) && NoFailures(c, b)
  {
    assert forall i :: 0 <= i < |a| ==> (a + b)[i] == a[i];
    assert forall i :: 0 <= i < |b| ==> (a + b)[|a| + i] == b[i];
  }

  /** Sequencing two pieces that follow their plans follows the joined plan. */
  lemma ThenFollows(c: Client, a: Run, b: Run, pa: seq<Call>, pb: seq<Call>)
    requires Follows(c, a, pa) && Follows(c, b, pb)
    ensures Follows(c, Then(a, b), pa + pb)
  {
    NoFailuresConcat(c, pa, pb);
    if a.outcome.Ok? {
      assert a.calls == pa;
      assert (pa + pb)[..|pa + b.calls|] == pa + b.calls;
    } else {
      assert (pa + pb)[..|a.calls|] == pa[..|a.calls|];
    }
  }

  /** One call follows the plan made of it. */
  lemma StepFollows(c: Client, call: Call)
    ensures Follows(c, Step(c, call), [call])
  {
    assert NoFailures(c, [call]) <==> c.Throws(call).None? by {
      assert [call][0] == call;
    }
  }

  // ---------------------------------------------------------------- record changes

  /** Two records agree on every field but "extras". */
  ghost predicate SameBesidesExtras(a: Object, b: Object)
  {
    forall k :: k != "extras" ==> (k in a <==> k in b) && (k in a ==> a[k] == b[k])
  }

  /** A well-formed record in which each of the keys has at most one extras entry. */
  predicate Keyed(record: Object, keys: set<string>)
  {
    WellFormed(record) && forall k :: k in keys ==> AtMostOnce(record, k)
  }

  /** setExtraValue changes nothing outside the extras. */
  lemma SetExtraOnlyExtras(record: Object, key: string, value: string)
    requires SetExtra(record, key, value).Ok?
    ensures SameBesidesExtras(SetExtra(record, key, value).value, record)
  {
    SetExtraSucceeds(record, key, value);
    KeysOfWellFormed(record);
    var items := Items(record);
    var out := SetExtra(record, key, value).value;
    match LastOf(MapAll(items, EntryKey).value, key)
    case Some(i) =>
      assert out == record["extras" := JArr(items[i := Extras.Entry(key, value)])];
    case None =>
      assert out == record["extras" := JArr(items + [Extras.Entry(key, value)])];
  }

  /** What one setExtraValue on a keyed record does, in terms getExtrasValue can observe. */
  lemma SetExtraFacts(record: Object, key: string, value: string)
    requires WellFormed(record) && AtMostOnce(record, key)
    ensures SetExtra(record, key, value).Ok?
    ensures var out := SetExtra(record, key, value).value;
      WellFormed(out) && SameBesidesExtras(out, record)
      && GetExtra(out, key) == Ok(Some(value))
      && (forall k :: k != key ==> GetExtra(out, k) == GetExtra(record, k))
      && (forall k :: AtMostOnce(record, k) ==> AtMostOnce(out, k))
  {
    SetExtraKeepsShape(record, key, value);
    GetAfterSet(record, key, value);
    KeysOfWellFormed(record);
    forall k | k != key ensures GetExtra(SetExtra(record, key, value).value, k) == GetExtra(record, k) {
      GetAfterSetOther(record, key, value, k);
    }
  }

  /**
   * The stamp both append strategies give the record they read: "modified"
   * becomes now, and "temporal_end" too when it was set to a non-empty text.
   */
  function Stamp(record: Object, timeNow: string): Result<Object>
  {
    var marked :- SetExtra(record, "modified", timeNow);
    var end :- GetExtra(marked, "temporal_end");
    if EmptyOpt(end) then Ok(marked) else SetExtra(marked, "temporal_end", timeNow)
  }

  /** The stamp throws exactly when setExtraValue or the lookup of "temporal_end" would. */
  lemma StampSucceeds(record: Object, timeNow: string)
    ensures Stamp(record, timeNow).Ok? <==> WellFormed(record) && GetExtra(record, "temporal_end").Ok?
  {
    SetExtraSucceeds(record, "modified", timeNow);
    if WellFormed(record) {
      GetAfterSetOther(record, "modified", timeNow, "temporal_end");
      SetExtraKeepsShape(record, "modified", timeNow);
      var marked := SetExtra(record, "modified", timeNow).value;
      SetExtraSucceeds(marked, "temporal_end", timeNow);
    }
  }

  /** After the stamp "modified" reads now, "temporal_end" reads now iff it was non-empty, and nothing else changes. */
  lemma StampEffect(record: Object, timeNow: string)
    requires Keyed(record, {"modified", "temporal_end"})
    requires GetExtra(record, "temporal_end").Ok?
    ensures Stamp(record, timeNow).Ok?
    ensures var s := Stamp(record, timeNow).value;
      Keyed(s, {"modified", "temporal_end"}) && SameBesidesExtras(s, record)
      && GetExtra(s, "modified") == Ok(Some(timeNow))
      && GetExtra(s, "temporal_end") ==
        (if EmptyOpt(GetExtra(record, "temporal_end").value) then GetExtra(record, "temporal_end") else Ok(Some(timeNow)))
      && forall k :: k != "modified" && k != "temporal_end" ==> GetExtra(s, k) == GetExtra(record, k)
  {
    assert AtMostOnce(record, "modified") && AtMostOnce(record, "temporal_end");
    SetExtraFacts(record, "modified", timeNow);
    var marked := SetExtra(record, "modified", timeNow).value;
    assert GetExtra(marked, "temporal_end") == GetExtra(record, "temporal_end");
    if !EmptyOpt(GetExtra(marked, "temporal_end").value) {
      SetExtraFacts(marked, "temporal_end", timeNow);
    }
  }

  /** The copy of the newest record that becomes the new dataset: without id and resources, marked as new. */
  function Detached(existing: Object): Object
  {
    (existing - {"resources", "id"})["is_new" := JBool(true)]
  }

  /** setExtraValue for each (key, value) pair in turn; the first exception stops the sequence. */
  function SetExtras(record: Object, entries: seq<(string, string)>): Result<Object>
    decreases |entries|
  {
    if entries == [] then Ok(record)
    else
      var before :- SetExtras(record, entries[..|entries| - 1]);
      SetExtra(before, entries[|entries| - 1].0, entries[|entries| - 1].1)
  }

  predicate DistinctKeys(entries: seq<(string, string)>)
  {
    forall i, j :: 0 <= i < j < |entries| ==> entries[i].0 != entries[j].0
  }

  /**
   * Setting distinct keys, none of them duplicated in the record: each key
   * then reads its value, every other key what it read before, and nothing
   * outside the extras changes.
   */
  lemma {:induction false} SetExtrasFacts(record: Object, entries: seq<(string, string)>)
    requires WellFormed(record) && DistinctKeys(entries)
    requires forall i :: 0 <= i < |entries| ==> AtMostOnce(record, entries[i].0)
    ensures SetExtras(record, entries).Ok?
    ensures var out := SetExtras(record, entries).value;
      && WellFormed(out) && SameBesidesExtras(out, record)
      && (forall k :: AtMostOnce(record, k) ==> AtMostOnce(out, k))
      && (forall i :: 0 <= i < |entries| ==> GetExtra(out, entries[i].0) == Ok(Some(entries[i].1)))
      && (forall k :: (forall i :: 0 <= i < |entries| ==> entries[i].0 != k) ==> GetExtra(out, k) == GetExtra(record, k))
    decreases |entries|
  {
    if entries != [] {
      var init := entries[..|entries| - 1];
      var last := entries[|entries| - 1];
      assert forall i :: 0 <= i < |init| ==> init[i] == entries[i];
      SetExtrasFacts(record, init);
      var before := SetExtras(record, init).value;
      SetExtraFacts(before, last.0, last.1);
    }
  }

  /** The two records an overwrite writes and the title the new one finally gets. */
  datatype Versions = Versions(existing: Object, draft: Object, realTitle: string)

  /** The new record's title gets today's date appended; the plain title is kept for the later rename. */
  function Titled(existing: Object, draft: Object, today: Day): Result<Versions>
  {
    var realTitle :- GetString(draft, "title");
    Ok(Versions(existing, draft["title" := JStr(realTitle + " " + Dates.Iso(today))], realTitle))
  }

  /** The extras an overwrite sets on the existing record, in the order it sets them. */
  function ExistingExtras(isPublic: bool, timeNow: string): seq<(string, string)>
  {
    if isPublic then [("modified", timeNow), ("temporal_start", timeNow), ("issued", timeNow)]
    else [("temporal_end", timeNow)]
  }

  /** The extras an overwrite sets on the new record, in the order it sets them. */
  function DraftExtras(isPublic: bool, timeNow: string, identifier: string): seq<(string, string)>
  {
    if isPublic then [("modified", timeNow), ("issued", timeNow), ("temporal_end", timeNow), ("identifier", identifier)]
    else [("modified", timeNow), ("issued", timeNow), ("temporal_start", timeNow), ("identifier", identifier)]
  }

  /**
   * The record changes of overwritePublic / overwritePrivate, in the order the
   * code makes them: first the existing record, then the new one, then the title.
   */
  function Prepare(existing: Object, isPublic: bool, timeNow: string, identifier: string, today: Day): Result<Versions>
  {
    PrepareWith(existing, ExistingExtras(isPublic, timeNow), DraftExtras(isPublic, timeNow, identifier), today)
  }

  /** Sets es on the existing record, ds on its detached copy, then dates the copy's title. */
  function PrepareWith(existing: Object, es: seq<(string, string)>, ds: seq<(string, string)>, today: Day): Result<Versions>
  {
    var e :- SetExtras(existing, es);
    var d :- SetExtras(Detached(existing), ds);
    Titled(e, d, today)
  }

  /** A key outside those overwritePublic sets on the existing record is none of its extras. */
  lemma PublicExistingAvoid(timeNow: string, k: string)
    requires k !in {"modified", "temporal_start", "issued"}
    ensures forall i :: 0 <= i < |ExistingExtras(true, timeNow)| ==> ExistingExtras(true, timeNow)[i].0 != k
  {
  }

  /** A key outside those overwritePublic sets on the new record is none of its extras. */
  lemma PublicDraftAvoid(timeNow: string, identifier: string, k: string)
    requires k !in {"modified", "issued", "temporal_end", "identifier"}
    ensures forall i :: 0 <= i < |DraftExtras(true, timeNow, identifier)| ==> DraftExtras(true, timeNow, identifier)[i].0 != k
  {
  }

  /** A key other than temporal_end is none of the extras overwritePrivate sets on the existing record. */
  lemma PrivateExistingAvoid(timeNow: string, k: string)
    requires k != "temporal_end"
    ensures forall i :: 0 <= i < |ExistingExtras(false, timeNow)| ==> ExistingExtras(false, timeNow)[i].0 != k
  {
  }

  /** A key outside those overwritePrivate sets on the new record is none of its extras. */
  lemma PrivateDraftAvoid(timeNow: string, identifier: string, k: string)
    requires k !in {"modified", "issued", "temporal_start", "identifier"}
    ensures forall i :: 0 <= i < |DraftExtras(false, timeNow, identifier)| ==> DraftExtras(false, timeNow, identifier)[i].0 != k
  {
  }

  /** The extras keys an overwrite sets. */
  const Dated := {"modified", "issued", "temporal_start", "temporal_end", "identifier"}

  /** The detached copy keeps the extras and every field but id, resources and is_new. */
  lemma DetachedKeepsExtras(existing: Object)
    requires Keyed(existing, Dated)
    ensures Keyed(Detached(existing), Dated)
    ensures forall k :: GetExtra(Detached(existing), k) == GetExtra(existing, k)
  {
    assert "extras" in Detached(existing) && Detached(existing)["extras"] == existing["extras"];
    assert Items(Detached(existing)) == Items(existing);
    forall k | k in Dated ensures AtMostOnce(Detached(existing), k) {
      assert AtMostOnce(existing, k);
    }
  }

  /** The new record: no id, no resources, is_new, the dated title; every other field copied. */
  ghost predicate DraftRecord(v: Versions, existing: Object, today: Day)
  {
    && "id" !in v.draft && "resources" !in v.draft
    && "is_new" in v.draft && v.draft["is_new"] == JBool(true)
    && GetString(existing, "title") == Ok(v.realTitle)
    && "title" in v.draft && v.draft["title"] == JStr(v.realTitle + " " + Dates.Iso(today))
    && forall k :: k !in {"id", "resources", "is_new", "title", "extras"} ==>
         (k in v.draft <==> k in existing) && (k in existing ==> v.draft[k] == existing[k])
  }

  /** The title and the copied fields of the new record, once its extras are set. */
  lemma TitledFacts(existing: Object, draft: Object, today: Day, e: Object)
    requires SameBesidesExtras(draft, Detached(existing))
    requires GetString(existing, "title").Ok?
    ensures Titled(e, draft, today).Ok?
    ensures Titled(e, draft, today).value.existing == e
    ensures Titled(e, draft, today).value.draft - {"title"} == draft - {"title"}
    ensures DraftRecord(Titled(e, draft, today).value, existing, today)
  {
    assert draft["title"] == Detached(existing)["title"];
  }

  /** Both overwrites: the two records are prepared, and each key set reads back its value. */
  lemma PrepareFacts(existing: Object, es: seq<(string, string)>, ds: seq<(string, string)>, today: Day)
    requires Keyed(existing, Dated) && GetString(existing, "title").Ok?
    requires DistinctKeys(es) && DistinctKeys(ds)
    requires forall i :: 0 <= i < |es| ==> es[i].0 in Dated
    requires forall i :: 0 <= i < |ds| ==> ds[i].0 in Dated
    ensures PrepareWith(existing, es, ds, today).Ok?
    ensures var v := PrepareWith(existing, es, ds, today).value;
      && SameBesidesExtras(v.existing, existing)
      && DraftRecord(v, existing, today)
      && (forall i :: 0 <= i < |es| ==> GetExtra(v.existing, es[i].0) == Ok(Some(es[i].1)))
      && (forall k :: (forall i :: 0 <= i < |es| ==> es[i].0 != k) ==> GetExtra(v.existing, k) == GetExtra(existing, k))
      && (forall i :: 0 <= i < |ds| ==> GetExtra(v.draft, ds[i].0) == Ok(Some(ds[i].1)))
      && (forall k :: (forall i :: 0 <= i < |ds| ==> ds[i].0 != k) ==> GetExtra(v.draft, k) == GetExtra(existing, k))
  {
    SetExtrasFacts(existing, es);
    DetachedKeepsExtras(existing);
    SetExtrasFacts(Detached(existing), ds);
    var e := SetExtras(existing, es).value;
    var d := SetExtras(Detached(existing), ds).value;
    TitledFacts(existing, d, today, e);
    var v := Titled(e, d, today).value;
    forall k ensures GetExtra(v.draft, k) == GetExtra(d, k) {
      assert v.draft["extras"] == d["extras"];
    }
  }

  /**
   * overwritePublic's records: the existing one gets modified, temporal_start
   * and issued = now; the new one modified, issued, temporal_end = now and the
   * fresh identifier; all other extras and fields stay as they were.
   */
  lemma PreparePublic(existing: Object, timeNow: string, identifier: string, today: Day)
    requires Keyed(existing, Dated) && GetString(existing, "title").Ok?
    ensures Prepare(existing, true, timeNow, identifier, today).Ok?
    ensures var v := Prepare(existing, true, timeNow, identifier, today).value;
      && SameBesidesExtras(v.existing, existing)
      && GetExtra(v.existing, "modified") == Ok(Some(timeNow))
      && GetExtra(v.existing, "temporal_start") == Ok(Some(timeNow))
      && GetExtra(v.existing, "issued") == Ok(Some(timeNow))
      && (forall k :: k !in {"modified", "temporal_start", "issued"} ==> GetExtra(v.existing, k) == GetExtra(existing, k))
      && DraftRecord(v, existing, today)
      && GetExtra(v.draft, "modified") == Ok(Some(timeNow))
      && GetExtra(v.draft, "issued") == Ok(Some(timeNow))
      && GetExtra(v.draft, "temporal_end") == Ok(Some(timeNow))
      && GetExtra(v.draft, "identifier") == Ok(Some(identifier))
      && (forall k :: k !in {"modified", "issued", "temporal_end", "identifier"} ==> GetExtra(v.draft, k) == GetExtra(existing, k))
  {
    PrepareFacts(existing, ExistingExtras(true, timeNow), DraftExtras(true, timeNow, identifier), today);
    var v := Prepare(existing, true, timeNow, identifier, today).value;
    var es := ExistingExtras(true, timeNow);
    var ds := DraftExtras(true, timeNow, identifier);
    assert GetExtra(v.existing, es[0].0) == Ok(Some(es[0].1));
    assert GetExtra(v.existing, es[1].0) == Ok(Some(es[1].1));
    assert GetExtra(v.existing, es[2].0) == Ok(Some(es[2].1));
    assert GetExtra(v.draft, ds[0].0) == Ok(Some(ds[0].1));
    assert GetExtra(v.draft, ds[1].0) == Ok(Some(ds[1].1));
    assert GetExtra(v.draft, ds[2].0) == Ok(Some(ds[2].1));
    assert GetExtra(v.draft, ds[3].0) == Ok(Some(ds[3].1));
    forall k | k !in {"modified", "temporal_start", "issued"} ensures GetExtra(v.existing, k) == GetExtra(existing, k) {
      PublicExistingAvoid(timeNow, k);
    }
    forall k | k !in {"modified", "issued", "temporal_end", "identifier"} ensures GetExtra(v.draft, k) == GetExtra(existing, k) {
      PublicDraftAvoid(timeNow, identifier, k);
    }
  }

  /**
   * overwritePrivate's records: the existing one gets only temporal_end = now;
   * the new one modified, issued, temporal_start = now and the fresh identifier.
   */
  lemma PreparePrivate(existing: Object, timeNow: string, identifier: string, today: Day)
    requires Keyed(existing, Dated) && GetString(existing, "title").Ok?
    ensures Prepare(existing, false, timeNow, identifier, today).Ok?
    ensures var v := Prepare(existing, false, timeNow, identifier, today).value;
      && SameBesidesExtras(v.existing, existing)
      && GetExtra(v.existing, "temporal_end") == Ok(Some(timeNow))
      && (forall k :: k != "temporal_end" ==> GetExtra(v.existing, k) == GetExtra(existing, k))
      && DraftRecord(v, existing, today)
      && GetExtra(v.draft, "modified") == Ok(Some(timeNow))
      && GetExtra(v.draft, "issued") == Ok(Some(timeNow))
      && GetExtra(v.draft, "temporal_start") == Ok(Some(timeNow))
      && GetExtra(v.draft, "identifier") == Ok(Some(identifier))
      && (forall k :: k !in {"modified", "issued", "temporal_start", "identifier"} ==> GetExtra(v.draft, k) == GetExtra(existing, k))
  {
    PrepareFacts(existing, ExistingExtras(false, timeNow), DraftExtras(false, timeNow, identifier), today);
    var v := Prepare(existing, false, timeNow, identifier, today).value;
    var es := ExistingExtras(false, timeNow);
    var ds := DraftExtras(false, timeNow, identifier);
    assert GetExtra(v.existing, es[0].0) == Ok(Some(es[0].1));
    assert GetExtra(v.draft, ds[0].0) == Ok(Some(ds[0].1));
    assert GetExtra(v.draft, ds[1].0) == Ok(Some(ds[1].1));
    assert GetExtra(v.draft, ds[2].0) == Ok(Some(ds[2].1));
    assert GetExtra(v.draft, ds[3].0) == Ok(Some(ds[3].1));
    forall k | k != "temporal_end" ensures GetExtra(v.existing, k) == GetExtra(existing, k) {
      PrivateExistingAvoid(timeNow, k);
    }
    forall k | k !in {"modified", "issued", "temporal_start", "identifier"} ensures GetExtra(v.draft, k) == GetExtra(existing, k) {
      PrivateDraftAvoid(timeNow, identifier, k);
    }
  }

  // ---------------------------------------------------------------- calls

  /** The upload of one scratch file: format from the name, MIME type from the format. */
  function UploadOf(packageId: string, f: Entry): Call
  {
    var format := FormatOf(f.name);
    Upload(packageId, f.name, format, MimeType(format))
  }

  function UploadCalls(packageId: string, files: Listing): seq<Call>
  {
    seq(|files|, i requires 0 <= i < |files| => UploadOf(packageId, files[i]))
  }

  function DeleteCalls(ids: seq<string>): seq<Call>
  {
    seq(|ids|, i requires 0 <= i < |ids| => Delete(ids[i]))
  }

  /** The ids of a record's resources (getResources, mapped to the id, collected into a set). */
  function ResourceIds(record: Object): Result<set<string>>
  {
    var resources :- CkanApi.Resources(record);
    Ok(set i | 0 <= i < |resources| :: resources[i].id)
  }

  /** The resource ids do not depend on the extras. */
  lemma ResourceIdsIgnoreExtras(a: Object, b: Object)
    requires SameBesidesExtras(a, b)
    ensures ResourceIds(a) == ResourceIds(b)
  {
    assert CkanApi.ResourceArray(a) == CkanApi.ResourceArray(b) by {
      assert ("resources" in a <==> "resources" in b) && ("result" in a <==> "result" in b);
    }
  }

  /** Deleting the snapshot in sorted order deletes each of its ids exactly once. */
  lemma DeletesEachOnce(ids: set<string>)
    ensures |DeleteCalls(SortedKeys(ids))| == |ids|
    ensures forall d :: Delete(d) in DeleteCalls(SortedKeys(ids)) <==> d in ids
    ensures forall i, j :: 0 <= i < j < |ids| ==> DeleteCalls(SortedKeys(ids))[i] != DeleteCalls(SortedKeys(ids))[j]
  {
    DeleteCallsOf(SortedKeys(ids));
  }

  /** One delete per id, in the order of the ids. */
  lemma DeleteCallsOf(keys: seq<string>)
    ensures |DeleteCalls(keys)| == |keys|
    ensures forall d :: Delete(d) in DeleteCalls(keys) <==> d in keys
    ensures (forall i, j :: 0 <= i < j < |keys| ==> keys[i] != keys[j]) ==>
      forall i, j :: 0 <= i < j < |keys| ==> DeleteCalls(keys)[i] != DeleteCalls(keys)[j]
  {
    var calls := DeleteCalls(keys);
    forall d | d in keys ensures Delete(d) in calls {
      var i :| 0 <= i < |keys| && keys[i] == d;
      assert calls[i] == Delete(d);
    }
  }

  /** A prefix of uploads followed by deletes has only those, and no upload after a delete. */
  lemma UploadsThenDeletes(xs: seq<Call>, ups: seq<Call>, dels: seq<Call>)
    requires xs <= ups + dels
    requires forall i :: 0 <= i < |ups| ==> ups[i].Upload?
    requires forall i :: 0 <= i < |dels| ==> dels[i].Delete?
    ensures forall i :: 0 <= i < |xs| ==> xs[i].Upload? || xs[i].Delete?
    ensures forall i, j :: 0 <= i < j < |xs| && xs[i].Delete? ==> xs[j].Delete?
  {
    forall i | 0 <= i < |xs| ensures xs[i] == (ups + dels)[i] && (xs[i].Upload? <==> i < |ups|) {
    }
  }

  // ---------------------------------------------------------------- append strategies

  /**
   * appendPublic: read the dataset, stamp it, write it back (not in a dry
   * run), and log its id.
   */
  function AppendPublicRun(c: Client, dryRun: bool, datasetId: Option<string>, timeNow: string): Run
  {
    if BlankOpt(datasetId) then Run([], Ok(false))
    else
      var id := datasetId.value;
      match c.ReadAnswer(id)
      case Err(m) => Run([Read(id)], Err(m))
      case Ok(None) => Run([Read(id)], Ok(false))
      case Ok(Some(record)) =>
        Then(Run([Read(id)], Ok(true)),
          match Stamp(record, timeNow)
          case Err(m) => Fail(m)
          case Ok(s) => Then(if dryRun then Done else Step(c, Update(s)), Check(GetString(s, "id"))))
  }

  /**
   * appendPrivate: read and stamp the dataset, then replace its resources;
   * the stamped record is never written back.
   */
  function AppendPrivateRun(c: Client, dryRun: bool, datasetId: Option<string>, timeNow: string, files: Listing): Run
  {
    if BlankOpt(datasetId) then Run([], Ok(false))
    else
      var id := datasetId.value;
      match c.ReadAnswer(id)
      case Err(m) => Run([Read(id)], Err(m))
      case Ok(None) => Run([Read(id)], Ok(false))
      case Ok(Some(record)) =>
        Then(Run([Read(id)], Ok(true)),
          match Stamp(record, timeNow)
          case Err(m) => Fail(m)
          case Ok(s) => ReplaceResources(c, dryRun, id, s, files))
  }

  /**
   * The resource exchange of appendPrivate on the stamped record s: snapshot
   * its resource ids, upload every scratch file to the dataset, then delete
   * the snapshot's resources (neither in a dry run), and log the id.
   */
  function ReplaceResources(c: Client, dryRun: bool, id: string, s: Object, files: Listing): Run
  {
    match ResourceIds(s)
    case Err(m) => Fail(m)
    case Ok(ids) => Then(Exchange(c, dryRun, id, ids, files), Check(GetString(s, "id")))
  }

  /** The uploads of the scratch files, then the deletes of the snapshot's resources; nothing in a dry run. */
  function Exchange(c: Client, dryRun: bool, id: string, ids: set<string>, files: Listing): Run
  {
    if dryRun then Done else Then(Steps(c, UploadCalls(id, files)), Steps(c, DeleteCalls(SortedKeys(ids))))
  }

  /** The stamp changes nothing outside the extras. */
  lemma StampKeepsFields(record: Object, timeNow: string)
    requires Stamp(record, timeNow).Ok?
    ensures SameBesidesExtras(Stamp(record, timeNow).value, record)
  {
    SetExtraOnlyExtras(record, "modified", timeNow);
    var marked := SetExtra(record, "modified", timeNow).value;
    var s := Stamp(record, timeNow).value;
    if s != marked {
      SetExtraOnlyExtras(marked, "temporal_end", timeNow);
    }
  }

  /** appendPublic reads the dataset first, never uploads or deletes, and writes it back at most once, never in a dry run. */
  lemma AppendPublicCalls(c: Client, dryRun: bool, datasetId: Option<string>, timeNow: string)
    ensures var r := AppendPublicRun(c, dryRun, datasetId, timeNow);
      && (BlankOpt(datasetId) <==> r.calls == [])
      && (BlankOpt(datasetId) ==> r.outcome == Ok(false))
      && (!BlankOpt(datasetId) ==> r.calls[0] == Read(datasetId.value))
      && (!BlankOpt(datasetId) && c.ReadAnswer(datasetId.value) == Ok(None) ==> r == Run([Read(datasetId.value)], Ok(false)))
      && Count(r.calls, IsUpload) == 0 && Count(r.calls, IsDelete) == 0
      && Count(r.calls, IsUpdate) <= 1
      && (dryRun ==> Count(r.calls, IsUpdate) == 0)
  {
    if !BlankOpt(datasetId) {
      var id := datasetId.value;
      var r := AppendPublicRun(c, dryRun, datasetId, timeNow);
      match c.ReadAnswer(id)
      case Err(_) =>
        ReadThenCounts(id, []);
      case Ok(None) =>
        ReadThenCounts(id, []);
      case Ok(Some(record)) =>
        match Stamp(record, timeNow)
        case Err(_) =>
          assert r.calls == [Read(id)] + [];
          ReadThenCounts(id, []);
        case Ok(s) =>
          if dryRun {
            assert r.calls == [Read(id)] + [];
            ReadThenCounts(id, []);
          } else {
            assert r.calls == [Read(id)] + [Update(s)];
            ReadThenCounts(id, [Update(s)]);
          }
    }
  }

  /** A read followed by at most one write-back counts no upload, no delete, and that write-back. */
  lemma ReadThenCounts(id: string, tail: seq<Call>)
    requires tail == [] || (|tail| == 1 && tail[0].Update?)
    ensures Count([Read(id)] + tail, IsUpload) == 0 && Count([Read(id)] + tail, IsDelete) == 0
    ensures Count([Read(id)] + tail, IsUpdate) == |tail|
  {
    if tail != [] {
      CountAppend([Read(id)], tail, IsUpdate);
      assert [Read(id)][..0] == [] && tail[..0] == [];
    } else {
      assert [Read(id)] + tail == [Read(id)];
    }
  }

  /**
   * appendPublic on a found, well-formed dataset: one read, one write-back of
   * the stamped record (none in a dry run), and true unless the write throws.
   */
  lemma AppendPublicSucceeds(c: Client, dryRun: bool, id: string, timeNow: string, record: Object)
    requires !Blank(id) && c.ReadAnswer(id) == Ok(Some(record))
    requires WellFormed(record) && GetExtra(record, "temporal_end").Ok? && GetString(record, "id").Ok?
    ensures Stamp(record, timeNow).Ok?
    ensures var s := Stamp(record, timeNow).value; var r := AppendPublicRun(c, dryRun, Some(id), timeNow);
      && r.calls == [Read(id)] + (if dryRun then [] else [Update(s)])
      && r.outcome == (if dryRun || c.Throws(Update(s)).None? then Ok(true) else Err(c.Throws(Update(s)).value))
  {
    StampSucceeds(record, timeNow);
    StampKeepsFields(record, timeNow);
    assert Stamp(record, timeNow).value["id"] == record["id"];
  }

  /** The exchange makes only uploads, then only deletes; none in a dry run. */
  lemma ExchangeCalls(c: Client, dryRun: bool, id: string, ids: set<string>, files: Listing)
    ensures var r := Exchange(c, dryRun, id, ids, files);
      && (dryRun ==> r == Done)
      && (forall i :: 0 <= i < |r.calls| ==> r.calls[i].Upload? || r.calls[i].Delete?)
      && (forall i, j :: 0 <= i < j < |r.calls| && r.calls[i].Delete? ==> r.calls[j].Delete?)
  {
    if !dryRun {
      var ups := UploadCalls(id, files);
      var dels := DeleteCalls(SortedKeys(ids));
      StepsTrace(c, ups);
      StepsTrace(c, dels);
      ThenFollows(c, Steps(c, ups), Steps(c, dels), ups, dels);
      UploadsThenDeletes(Exchange(c, dryRun, id, ids, files).calls, ups, dels);
    }
  }

  /** An exchange whose calls do not throw makes all of them and ends true. */
  lemma ExchangeSucceeds(c: Client, dryRun: bool, id: string, ids: set<string>, files: Listing)
    requires NoFailures(c, UploadCalls(id, files) + DeleteCalls(SortedKeys(ids)))
    ensures Exchange(c, dryRun, id, ids, files) ==
      Run(if dryRun then [] else UploadCalls(id, files) + DeleteCalls(SortedKeys(ids)), Ok(true))
  {
    var ups := UploadCalls(id, files);
    var dels := DeleteCalls(SortedKeys(ids));
    StepsTrace(c, ups);
    StepsTrace(c, dels);
    ThenFollows(c, Steps(c, ups), Steps(c, dels), ups, dels);
  }

  /** The resource exchange of appendPrivate makes only uploads, then only deletes; none in a dry run. */
  lemma ReplaceResourcesCalls(c: Client, dryRun: bool, id: string, s: Object, files: Listing)
    ensures var r := ReplaceResources(c, dryRun, id, s, files);
      && (dryRun ==> r.calls == [])
      && (forall i :: 0 <= i < |r.calls| ==> r.calls[i].Upload? || r.calls[i].Delete?)
      && (forall i, j :: 0 <= i < j < |r.calls| && r.calls[i].Delete? ==> r.calls[j].Delete?)
  {
    match ResourceIds(s)
    case Err(m) =>
    case Ok(ids) =>
      ExchangeCalls(c, dryRun, id, ids, files);
      var x := Exchange(c, dryRun, id, ids, files);
      assert x.calls + [] == x.calls;
  }

  /**
   * The resource exchange on a record whose calls do not throw: an upload of
   * every scratch file in listing order, then a delete of every snapshot id.
   */
  lemma ReplaceResourcesSucceeds(c: Client, dryRun: bool, id: string, s: Object, files: Listing)
    requires ResourceIds(s).Ok? && GetString(s, "id").Ok?
    requires NoFailures(c, UploadCalls(id, files) + DeleteCalls(SortedKeys(ResourceIds(s).value)))
    ensures ReplaceResources(c, dryRun, id, s, files) ==
      Run(if dryRun then [] else UploadCalls(id, files) + DeleteCalls(SortedKeys(ResourceIds(s).value)), Ok(true))
  {
    ExchangeSucceeds(c, dryRun, id, ResourceIds(s).value, files);
  }

  /** The runs after a successful read: the read first, then what follows. */
  lemma AfterRead(id: string, x: Run)
    requires forall i :: 0 <= i < |x.calls| ==> x.calls[i].Upload? || x.calls[i].Delete?
    requires forall i, j :: 0 <= i < j < |x.calls| && x.calls[i].Delete? ==> x.calls[j].Delete?
    ensures var r := Then(Run([Read(id)], Ok(true)), x);
      && r.calls == [Read(id)] + x.calls
      && (forall i :: 0 <= i < |r.calls| ==> !r.calls[i].Update?)
      && (forall i, j :: 0 <= i < j < |r.calls| && r.calls[i].Delete? ==> r.calls[j].Delete?)
  {
    var r := Then(Run([Read(id)], Ok(true)), x);
    assert forall i :: 0 < i < |r.calls| ==> r.calls[i] == x.calls[i - 1];
  }

  /**
   * appendPrivate never writes the record back, makes only the read in a dry
   * run, and never uploads after it started deleting.
   */
  lemma AppendPrivateCalls(c: Client, dryRun: bool, datasetId: Option<string>, timeNow: string, files: Listing)
    ensures var r := AppendPrivateRun(c, dryRun, datasetId, timeNow, files);
      && (BlankOpt(datasetId) ==> r == Run([], Ok(false)))
      && (!BlankOpt(datasetId) && c.ReadAnswer(datasetId.value) == Ok(None) ==> r == Run([Read(datasetId.value)], Ok(false)))
      && Count(r.calls, IsUpdate) == 0
      && (dryRun ==> forall i :: 0 <= i < |r.calls| ==> r.calls[i].Read?)
      && (forall i, j :: 0 <= i < j < |r.calls| && r.calls[i].Delete? ==> r.calls[j].Delete?)
  {
    if !BlankOpt(datasetId) && c.ReadAnswer(datasetId.value).Ok? && c.ReadAnswer(datasetId.value).value.Some? {
      var id := datasetId.value;
      var record := c.ReadAnswer(id).value.value;
      match Stamp(record, timeNow)
      case Err(m) =>
        AfterRead(id, Fail(m));
      case Ok(s) =>
        ReplaceResourcesCalls(c, dryRun, id, s, files);
        AfterRead(id, ReplaceResources(c, dryRun, id, s, files));
    }
  }

  /**
   * appendPrivate on a found, well-formed dataset whose calls do not throw:
   * the read, an upload of every scratch file to the dataset in listing
   * order, then a delete of every resource id of the record as read; true.
   */
  lemma AppendPrivateSucceeds(c: Client, dryRun: bool, id: string, timeNow: string, files: Listing, record: Object)
    requires !Blank(id) && c.ReadAnswer(id) == Ok(Some(record))
    requires WellFormed(record) && GetExtra(record, "temporal_end").Ok? && GetString(record, "id").Ok?
    requires ResourceIds(record).Ok?
    requires NoFailures(c, UploadCalls(id, files) + DeleteCalls(SortedKeys(ResourceIds(record).value)))
    ensures AppendPrivateRun(c, dryRun, Some(id), timeNow, files) ==
      Run([Read(id)] + (if dryRun then [] else UploadCalls(id, files) + DeleteCalls(SortedKeys(ResourceIds(record).value))), Ok(true))
  {
    StampSucceeds(record, timeNow);
    StampKeepsFields(record, timeNow);
    var s := Stamp(record, timeNow).value;
    ResourceIdsIgnoreExtras(s, record);
    assert s["id"] == record["id"];
    ReplaceResourcesSucceeds(c, dryRun, id, s, files);
  }

  // ---------------------------------------------------------------- overwrite strategies

  /** The message of the NullPointerException thrown when the collection's newest member cannot be read. */
  const NoRecord := "NullPointerException: the newest dataset of the collection does not exist"

  /** The two closing calls: overwritePublic attaches, then updates; overwritePrivate the other way round. */
  function Finale(newId: string, collectionId: string, v: Versions, isPublic: bool): seq<Call>
  {
    if isPublic then [Attach(newId, collectionId), Update(v.existing)]
    else [Update(v.existing), Attach(newId, collectionId)]
  }

  /** The first two calls of a non-dry overwrite: create the new dataset, then rename it to the real title. */
  function DraftCalls(newId: string, v: Versions): seq<Call>
  {
    [Create(v.draft), Retitle(newId, v.realTitle)]
  }

  /** Every call an overwrite makes after it prepared the records, in order. */
  function PublishCalls(newId: string, collectionId: string, v: Versions, isPublic: bool, files: Listing): seq<Call>
  {
    [Create(v.draft), Retitle(newId, v.realTitle)] + UploadCalls(newId, files) + Finale(newId, collectionId, v, isPublic)
  }

  /** create, rename to the real title, upload the files to the new id, then attach and update. */
  function Publish(c: Client, collectionId: string, v: Versions, isPublic: bool, files: Listing): Run
  {
    var newId := c.createdId;
    Then(Step(c, Create(v.draft)),
      Then(Step(c, Retitle(newId, v.realTitle)),
        Then(Steps(c, UploadCalls(newId, files)),
          Steps(c, Finale(newId, collectionId, v, isPublic)))))
  }

  /** What a dry run of overwritePublic evaluates for its log lines; only the lookups can throw. */
  function DryRunReport(v: Versions): Result<bool>
  {
    var title :- GetString(v.draft, "title");
    var issued :- GetExtra(v.draft, "issued");
    var start :- GetExtra(v.draft, "temporal_start");
    var end :- GetExtra(v.draft, "temporal_end");
    var oldStart :- GetExtra(v.existing, "temporal_start");
    var oldEnd :- GetExtra(v.existing, "temporal_end");
    Ok(true)
  }

  /**
   * overwritePublic (isPublic) and overwritePrivate: find the collection's
   * newest dataset, prepare the two records, and publish them unless this is
   * a dry run.
   */
  function OverwriteRun(c: Client, dryRun: bool, isPublic: bool, collectionId: Option<string>, files: Listing, env: Env): Run
  {
    if BlankOpt(collectionId) then Run([], Ok(false))
    else
      var coll := collectionId.value;
      match c.NewestAnswer(coll)
      case Err(m) => Run([FindNewest(coll)], Err(m))
      case Ok(None) => Run([FindNewest(coll)], Ok(false))
      case Ok(Some(newestId)) => Then(Run([FindNewest(coll)], Ok(true)), FromNewest(c, dryRun, isPublic, coll, newestId, files, env))
  }

  /** An overwrite once the collection's newest member is known: read it, then replace it. */
  function FromNewest(c: Client, dryRun: bool, isPublic: bool, coll: string, newestId: string, files: Listing, env: Env): Run
  {
    match c.ReadAnswer(newestId)
    case Err(m) => Run([Read(newestId)], Err(m))
    case Ok(None) => Run([Read(newestId)], Err(NoRecord))
    case Ok(Some(existing)) => Then(Run([Read(newestId)], Ok(true)), Replace(c, dryRun, isPublic, coll, existing, files, env))
  }

  /** An overwrite once the newest member's record is read: prepare the two records, then publish them unless this is a dry run. */
  function Replace(c: Client, dryRun: bool, isPublic: bool, coll: string, existing: Object, files: Listing, env: Env): Run
  {
    match Prepare(existing, isPublic, env.timeNow, env.identifier, env.today)
    case Err(m) => Fail(m)
    case Ok(v) =>
      if dryRun then (if isPublic then Check(DryRunReport(v)) else Done)
      else Publish(c, coll, v, isPublic, files)
  }

  /** Publishing follows its plan: create, rename, the uploads, the two closing calls. */
  lemma PublishOrder(c: Client, collectionId: string, v: Versions, isPublic: bool, files: Listing)
    ensures Follows(c, Publish(c, collectionId, v, isPublic, files), PublishCalls(c.createdId, collectionId, v, isPublic, files))
  {
    var newId := c.createdId;
    var ups := UploadCalls(newId, files);
    var fin := Finale(newId, collectionId, v, isPublic);
    StepsFollowSteps(c, ups, fin);
    StepFollows(c, Create(v.draft));
    StepFollows(c, Retitle(newId, v.realTitle));
    ChainFollows(c, Step(c, Create(v.draft)), Step(c, Retitle(newId, v.realTitle)), Then(Steps(c, ups), Steps(c, fin)),
      [Create(v.draft)], [Retitle(newId, v.realTitle)], ups + fin);
    PublishCallsSplit(newId, collectionId, v, isPublic, files);
  }

  /** Two loops of calls, one after the other, follow their joined plans. */
  lemma StepsFollowSteps(c: Client, first: seq<Call>, second: seq<Call>)
    ensures Follows(c, Then(Steps(c, first), Steps(c, second)), first + second)
  {
    StepsTrace(c, first);
    StepsTrace(c, second);
    ThenFollows(c, Steps(c, first), Steps(c, second), first, second);
  }

  lemma PublishCallsSplit(newId: string, collectionId: string, v: Versions, isPublic: bool, files: Listing)
    ensures PublishCalls(newId, collectionId, v, isPublic, files) ==
      [Create(v.draft)] + [Retitle(newId, v.realTitle)] + (UploadCalls(newId, files) + Finale(newId, collectionId, v, isPublic))
  {
  }

  /** Three runs that follow their plans, chained, follow the joined plan. */
  lemma ChainFollows(c: Client, a: Run, b: Run, t: Run, pa: seq<Call>, pb: seq<Call>, pt: seq<Call>)
    requires Follows(c, a, pa) && Follows(c, b, pb) && Follows(c, t, pt)
    ensures Follows(c, Then(a, Then(b, t)), pa + pb + pt)
  {
    ThenFollows(c, b, t, pb, pt);
    ThenFollows(c, a, Then(b, t), pa, pb + pt);
    assert pa + (pb + pt) == pa + pb + pt;
  }

  /** A blank collection id, or a collection without a newest member, ends false; a missing member record throws. */
  lemma OverwriteNotFound(c: Client, dryRun: bool, isPublic: bool, collectionId: Option<string>, files: Listing, env: Env)
    ensures var r := OverwriteRun(c, dryRun, isPublic, collectionId, files, env);
      && (BlankOpt(collectionId) ==> r == Run([], Ok(false)))
      && (!BlankOpt(collectionId) && c.NewestAnswer(collectionId.value) == Ok(None) ==>
            r == Run([FindNewest(collectionId.value)], Ok(false)))
      && ((!BlankOpt(collectionId) && c.NewestAnswer(collectionId.value).Ok? && c.NewestAnswer(collectionId.value).value.Some?
           && c.ReadAnswer(c.NewestAnswer(collectionId.value).value.value) == Ok(None)) ==> r.outcome == Err(NoRecord))
  {
  }

  /** A dry run of either overwrite only looks up the newest member and reads it. */
  lemma OverwriteDryRun(c: Client, isPublic: bool, collectionId: Option<string>, files: Listing, env: Env)
    ensures var r := OverwriteRun(c, true, isPublic, collectionId, files, env);
      && |r.calls| <= 2
      && forall i :: 0 <= i < |r.calls| ==> r.calls[i].FindNewest? || r.calls[i].Read?
  {
  }

  /**
   * An overwrite that finds the newest member and whose calls do not throw:
   * lookup, read, then create, rename, the uploads to the new id, and the
   * two closing calls, ending true.
   */
  lemma OverwriteSucceeds(c: Client, isPublic: bool, coll: string, files: Listing, env: Env, newestId: string, existing: Object)
    requires !Blank(coll) && c.NewestAnswer(coll) == Ok(Some(newestId)) && c.ReadAnswer(newestId) == Ok(Some(existing))
    requires Prepare(existing, isPublic, env.timeNow, env.identifier, env.today).Ok?
    requires NoFailures(c, PublishCalls(c.createdId, coll, Prepare(existing, isPublic, env.timeNow, env.identifier, env.today).value, isPublic, files))
    ensures OverwriteRun(c, false, isPublic, Some(coll), files, env) ==
      Run([FindNewest(coll), Read(newestId)] + PublishCalls(c.createdId, coll, Prepare(existing, isPublic, env.timeNow, env.identifier, env.today).value, isPublic, files), Ok(true))
  {
    var plan := PublishCalls(c.createdId, coll, Prepare(existing, isPublic, env.timeNow, env.identifier, env.today).value, isPublic, files);
    var tail := FromNewest(c, false, isPublic, coll, newestId, files, env);
    assert tail == Run([Read(newestId)] + plan, Ok(true)) by {
      FromNewestSucceeds(c, isPublic, coll, files, env, newestId, existing);
    }
    assert OverwriteRun(c, false, isPublic, Some(coll), files, env) == Then(Run([FindNewest(coll)], Ok(true)), tail);
    ThenPrefix(FindNewest(coll), Read(newestId), plan);
  }

  /** A call that succeeded, then a run that ended true, make one run of all their calls. */
  lemma ThenPrefix(first: Call, second: Call, plan: seq<Call>)
    ensures Then(Run([first], Ok(true)), Run([second] + plan, Ok(true))) == Run([first, second] + plan, Ok(true))
  {
    assert [first] + ([second] + plan) == [first, second] + plan;
  }

  lemma FromNewestSucceeds(c: Client, isPublic: bool, coll: string, files: Listing, env: Env, newestId: string, existing: Object)
    requires c.ReadAnswer(newestId) == Ok(Some(existing))
    requires Prepare(existing, isPublic, env.timeNow, env.identifier, env.today).Ok?
    requires NoFailures(c, PublishCalls(c.createdId, coll, Prepare(existing, isPublic, env.timeNow, env.identifier, env.today).value, isPublic, files))
    ensures FromNewest(c, false, isPublic, coll, newestId, files, env) ==
      Run([Read(newestId)] + PublishCalls(c.createdId, coll, Prepare(existing, isPublic, env.timeNow, env.identifier, env.today).value, isPublic, files), Ok(true))
  {
    ReplaceSucceeds(c, isPublic, coll, files, env, existing);
  }

  /** Once the records are prepared and no call throws, the replacement is the whole publishing plan, ending true. */
  lemma ReplaceSucceeds(c: Client, isPublic: bool, coll: string, files: Listing, env: Env, existing: Object)
    requires Prepare(existing, isPublic, env.timeNow, env.identifier, env.today).Ok?
    requires NoFailures(c, PublishCalls(c.createdId, coll, Prepare(existing, isPublic, env.timeNow, env.identifier, env.today).value, isPublic, files))
    ensures Replace(c, false, isPublic, coll, existing, files, env) ==
      Run(PublishCalls(c.createdId, coll, Prepare(existing, isPublic, env.timeNow, env.identifier, env.today).value, isPublic, files), Ok(true))
  {
    var v := Prepare(existing, isPublic, env.timeNow, env.identifier, env.today).value;
    PublishOrder(c, coll, v, isPublic, files);
  }
}
