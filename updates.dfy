/**
 * The updater itself (OpenDataUpdatesCkan) as an object: a catalog client, the
 * dry-run switch, the local directory of last published copies and the
 * scratch directories on disk. Each method does, step by step, what the
 * corresponding function of Publishing or Orchestration describes, and is
 * proved to make exactly that function's calls with that function's outcome.
 */
module Updates {
  import opened Wrappers
  import opened Text
  import opened Json
  import opened Catalog
  import opened Extras
  import opened Files
  import opened Jobs
  import opened Publishing
  import opened Orchestration
  import CkanApi
  import Dates

  /** Calls logged after calls already logged (sequence concatenation is associative). */
  lemma Logged(log: seq<Call>, a: seq<Call>, b: seq<Call>)
    ensures log + a + b == log + (a + b)
  {
  }

  /** A loop of calls one call further. */
  lemma StepsSnoc(c: Client, calls: seq<Call>, i: nat)
    requires i < |calls|
    ensures Steps(c, calls[..i + 1]) == Then(Steps(c, calls[..i]), Step(c, calls[i]))
  {
    assert calls[..i + 1][..i] == calls[..i];
  }

  /** Two calls logged one after the other, then more. */
  lemma LoggedPair(log: seq<Call>, a: Call, b: Call, rest: seq<Call>)
    ensures log + [a] + [b] == log + [a, b]
    ensures log + [a, b] + rest == log + ([a, b] + rest)
  {
  }

  /** A loop of calls that ends normally ends true. */
  lemma {:induction false} StepsOk(c: Client, calls: seq<Call>)
    ensures Steps(c, calls).outcome.Ok? ==> Steps(c, calls).outcome == Ok(true)
    decreases |calls|
  {
    if calls != [] {
      StepsOk(c, calls[..|calls| - 1]);
    }
  }

  lemma ThenAssoc(a: Run, b: Run, x: Run)
    ensures Then(Then(a, b), x) == Then(a, Then(b, x))
  {
    if a.outcome.Ok? && b.outcome.Ok? {
      assert a.calls + b.calls + x.calls == a.calls + (b.calls + x.calls);
    }
  }

  /** A loop over two lists of calls is the loop over the first, then the loop over the second. */
  lemma {:induction false} StepsConcat(c: Client, a: seq<Call>, b: seq<Call>)
    ensures Steps(c, a + b) == Then(Steps(c, a), Steps(c, b))
    decreases |b|
  {
    if b == [] {
      assert a + b == a;
      StepsOk(c, a);
      assert Steps(c, a).calls + [] == Steps(c, a).calls;
    } else {
      var init := b[..|b| - 1];
      assert (a + b)[..|a + b| - 1] == a + init;
      assert (a + b)[|a + b| - 1] == b[|b| - 1];
      StepsConcat(c, a, init);
      ThenAssoc(Steps(c, a), Steps(c, init), Step(c, b[|b| - 1]));
    }
  }

  /** Where the calls of an overwrite's publishing sit in its plan. */
  lemma PublishPlan(newId: string, coll: string, v: Versions, isPublic: bool, files: Listing)
    ensures var p := PublishCalls(newId, coll, v, isPublic, files); var fin := Finale(newId, coll, v, isPublic);
      && |p| == |files| + 4 && p[0] == Create(v.draft) && p[1] == Retitle(newId, v.realTitle)
      && p[2..|files| + 2] == UploadCalls(newId, files)
      && p[|files| + 2] == fin[0] && p[|files| + 3] == fin[1]
  {
    var p := PublishCalls(newId, coll, v, isPublic, files);
    var ups := UploadCalls(newId, files);
    assert p == [Create(v.draft), Retitle(newId, v.realTitle)] + ups + Finale(newId, coll, v, isPublic);
    assert p[2..|files| + 2] == ups;
  }

  /** Publishing is the loop over its plan. */
  lemma PublishIsSteps(c: Client, coll: string, v: Versions, isPublic: bool, files: Listing)
    ensures Publish(c, coll, v, isPublic, files) == Steps(c, PublishCalls(c.createdId, coll, v, isPublic, files))
  {
    var newId := c.createdId;
    var ups := UploadCalls(newId, files);
    var fin := Finale(newId, coll, v, isPublic);
    var create := Create(v.draft);
    var retitle := Retitle(newId, v.realTitle);
    assert [create, retitle][..1] == [create];
    assert [create][..0] == [];
    assert Steps(c, [create]) == Step(c, create);
    assert Steps(c, [create, retitle]) == Then(Step(c, create), Step(c, retitle));
    StepsConcat(c, [create, retitle], ups);
    StepsConcat(c, [create, retitle] + ups, fin);
    ThenAssoc(Steps(c, [create, retitle]), Steps(c, ups), Steps(c, fin));
    ThenAssoc(Step(c, create), Step(c, retitle), Then(Steps(c, ups), Steps(c, fin)));
  }

  /** One more call of a plan has been logged. */
  lemma Advance(c: Client, plan: seq<Call>, k: nat, base: seq<Call>, log: seq<Call>)
    requires k < |plan| && Steps(c, plan[..k]).outcome == Ok(true)
    requires log == base + Steps(c, plan[..k]).calls + [plan[k]]
    ensures log == base + Steps(c, plan[..k + 1]).calls
    ensures Steps(c, plan[..k + 1]).outcome == c.Answer(plan[k], true)
    ensures Steps(c, plan[..k + 1]).outcome.Err? ==> Steps(c, plan) == Steps(c, plan[..k + 1])
  {
    StepsSnoc(c, plan, k);
    Logged(base, Steps(c, plan[..k]).calls, [plan[k]]);
    if Steps(c, plan[..k + 1]).outcome.Err? {
      StepsFailedPrefix(c, plan, k + 1);
    }
  }

  /** The calls plan[k..m] have been logged, by a loop over them. */
  lemma AdvanceMany(c: Client, plan: seq<Call>, k: nat, m: nat, base: seq<Call>, log: seq<Call>)
    requires k <= m <= |plan| && Steps(c, plan[..k]).outcome == Ok(true)
    requires log == base + Steps(c, plan[..k]).calls + Steps(c, plan[k..m]).calls
    ensures log == base + Steps(c, plan[..m]).calls
    ensures Steps(c, plan[..m]).outcome == Steps(c, plan[k..m]).outcome
    ensures Steps(c, plan[..m]).outcome.Err? ==> Steps(c, plan) == Steps(c, plan[..m])
  {
    assert plan[..m] == plan[..k] + plan[k..m];
    StepsConcat(c, plan[..k], plan[k..m]);
    Logged(base, Steps(c, plan[..k]).calls, Steps(c, plan[k..m]).calls);
    if Steps(c, plan[..m]).outcome.Err? {
      StepsFailedPrefix(c, plan, m);
    }
  }

  /** A sequence of setExtraValue calls one call further. */
  lemma SetExtrasStep(record: Object, entries: seq<(string, string)>, i: nat)
    requires i < |entries|
    ensures SetExtras(record, entries[..i + 1]) ==
      match SetExtras(record, entries[..i])
      case Err(m) => Err(m)
      case Ok(before) => SetExtra(before, entries[i].0, entries[i].1)
  {
    assert entries[..i + 1][..i] == entries[..i];
  }

  /** Once one setExtraValue of the sequence throws, the sequence throws that. */
  lemma {:induction false} SetExtrasFailedPrefix(record: Object, entries: seq<(string, string)>, k: nat)
    requires k <= |entries| && SetExtras(record, entries[..k]).Err?
    ensures SetExtras(record, entries) == SetExtras(record, entries[..k])
    decreases |entries|
  {
    if k < |entries| {
      var init := entries[..|entries| - 1];
      assert init[..k] == entries[..k];
      SetExtrasFailedPrefix(record, init, k);
    } else {
      assert entries[..k] == entries;
    }
  }

  /** The i-th of a fixed sequence of setExtraValue calls on a record that has had the first i. */
  method SetNext(d: Dataset, ghost start: Object, entries: seq<(string, string)>, i: nat) returns (r: Result<()>)
    requires i < |entries| && SetExtras(start, entries[..i]) == Ok(d.record)
    modifies d
    ensures r.Ok? ==> SetExtras(start, entries[..i + 1]) == Ok(d.record)
    ensures r.Err? ==> SetExtras(start, entries) == Err(r.error)
  {
    r := d.SetExtraValue(entries[i].0, entries[i].1);
    SetExtrasStep(start, entries, i);
    if r.Err? {
      SetExtrasFailedPrefix(start, entries, i + 1);
    }
  }

  /** The stamp the append strategies give the dataset they read, made in place. */
  method MarkModified(d: Dataset, timeNow: string) returns (r: Result<()>)
    modifies d
    ensures Stamp(old(d.record), timeNow) == if r.Ok? then Ok(d.record) else Err(r.error)
  {
    var _ :- d.SetExtraValue("modified", timeNow);
    var end :- d.GetExtrasValue("temporal_end");
    if !EmptyOpt(end) {
      r := d.SetExtraValue("temporal_end", timeNow);
    } else {
      r := Ok(());
    }
  }

  /**
   * The setExtraValue calls an overwrite makes in a row, written one statement
   * each in the source: three (public) or one (private) on the record it
   * found, four on the new record; the first that throws ends the sequence.
   */
  method SetEach(d: Dataset, entries: seq<(string, string)>) returns (r: Result<()>)
    modifies d
    ensures SetExtras(old(d.record), entries) == if r.Ok? then Ok(d.record) else Err(r.error)
  {
    ghost var start := d.record;
    assert entries[..0] == [];
    r := Ok(());
    for i := 0 to |entries|
      invariant r.Ok? && SetExtras(start, entries[..i]) == Ok(d.record)
    {
      r := SetNext(d, start, entries, i);
      if r.Err? {
        return;
      }
    }
    assert entries[..|entries|] == entries;
  }

  class Updater {
    const client: Client
    const dryRun: bool
    /** localDataDir: the last published copy of each job's files, by job id. */
    var cache: map<string, Listing>
    /** The scratch directories that exist on disk. */
    var scratch: set<string>

    constructor (client: Client, dryRun: bool, cache: map<string, Listing>)
      ensures this.client == client && this.dryRun == dryRun && this.cache == cache && scratch == {}
    {
      this.client := client;
      this.dryRun := dryRun;
      this.cache := cache;
      scratch := {};
    }

    /** A loop that sends the given calls in order and stops at the first exception. */
    method SendAll(calls: seq<Call>) returns (r: Result<bool>)
      modifies client
      ensures client.log == old(client.log) + Steps(client, calls).calls
      ensures r == Steps(client, calls).outcome
    {
      var i := 0;
      while i < |calls|
        invariant 0 <= i <= |calls|
        invariant Steps(client, calls[..i]).outcome == Ok(true)
        invariant client.log == old(client.log) + Steps(client, calls[..i]).calls
      {
        ghost var done := Steps(client, calls[..i]).calls;
        var sent := client.Send(calls[i]);
        StepsSnoc(client, calls, i);
        Logged(old(client.log), done, [calls[i]]);
        if sent.Err? {
          StepsFailedPrefix(client, calls, i + 1);
          return Err(sent.error);
        }
        i := i + 1;
      }
      assert calls[..i] == calls;
      return Ok(true);
    }

    /** The upload loop: every scratch file to the package, format and MIME type from its name. */
    method UploadFiles(packageId: string, files: Listing) returns (r: Result<bool>)
      modifies client
      ensures client.log == old(client.log) + Steps(client, UploadCalls(packageId, files)).calls
      ensures r == Steps(client, UploadCalls(packageId, files)).outcome
    {
      r := SendAll(UploadCalls(packageId, files));
    }

    /** The delete loop over the snapshot of resource ids, in the order given. */
    method DeleteResources(keys: seq<string>) returns (r: Result<bool>)
      modifies client
      ensures client.log == old(client.log) + Steps(client, DeleteCalls(keys)).calls
      ensures r == Steps(client, DeleteCalls(keys)).outcome
    {
      r := SendAll(DeleteCalls(keys));
    }

    /** appendPublic. */
    method AppendPublic(datasetId: Option<string>, timeNow: string) returns (r: Result<bool>)
      modifies client
      ensures client.log == old(client.log) + AppendPublicRun(client, dryRun, datasetId, timeNow).calls
      ensures r == AppendPublicRun(client, dryRun, datasetId, timeNow).outcome
    {
      if BlankOpt(datasetId) {
        return Ok(false);
      }
      var id := datasetId.value;
      var found := client.ReadDataset(id);
      if found.Err? {
        return Err(found.error);
      }
      if found.value.None? {
        return Ok(false);
      }
      var dataset := new Dataset(found.value.value);
      var stamped := MarkModified(dataset, timeNow);
      if stamped.Err? {
        return Err(stamped.error);
      }
      if !dryRun {
        var written := client.Send(Update(dataset.record));
        if written.Err? {
          return Err(written.error);
        }
      }
      var logged := GetString(dataset.record, "id");
      if logged.Err? {
        return Err(logged.error);
      }
      return Ok(true);
    }

    /** appendPrivate: the stamped dataset is only used for its resources and id. */
    method AppendPrivate(datasetId: Option<string>, timeNow: string, files: Listing) returns (r: Result<bool>)
      modifies client
      ensures client.log == old(client.log) + AppendPrivateRun(client, dryRun, datasetId, timeNow, files).calls
      ensures r == AppendPrivateRun(client, dryRun, datasetId, timeNow, files).outcome
    {
      if BlankOpt(datasetId) {
        return Ok(false);
      }
      var id := datasetId.value;
      var found := client.ReadDataset(id);
      if found.Err? {
        return Err(found.error);
      }
      if found.value.None? {
        return Ok(false);
      }
      var dataset := new Dataset(found.value.value);
      var stamped := MarkModified(dataset, timeNow);
      if stamped.Err? {
        return Err(stamped.error);
      }
      r := ExchangeResources(id, dataset.record, files);
      Logged(old(client.log), [Read(id)], ReplaceResources(client, dryRun, id, dataset.record, files).calls);
    }

    /** The resource exchange of appendPrivate on the stamped record. */
    method ExchangeResources(id: string, s: Object, files: Listing) returns (r: Result<bool>)
      modifies client
      ensures client.log == old(client.log) + ReplaceResources(client, dryRun, id, s, files).calls
      ensures r == ReplaceResources(client, dryRun, id, s, files).outcome
    {
      var resources := CkanApi.GetResources(s);
      if resources.Err? {
        return Err(resources.error);
      }
      var oldIds := set i | 0 <= i < |resources.value| :: resources.value[i].id;
      var exchanged := UploadThenDelete(id, oldIds, files);
      if exchanged.Err? {
        return exchanged;
      }
      var logged := GetString(s, "id");
      if logged.Err? {
        return Err(logged.error);
      }
      return Ok(true);
    }

    /** The uploads, then the deletes of the old resources, unless this is a dry run. */
    method UploadThenDelete(id: string, oldIds: set<string>, files: Listing) returns (r: Result<bool>)
      modifies client
      ensures client.log == old(client.log) + Exchange(client, dryRun, id, oldIds, files).calls
      ensures r.Err? <==> Exchange(client, dryRun, id, oldIds, files).outcome.Err?
      ensures r.Err? ==> r == Exchange(client, dryRun, id, oldIds, files).outcome
    {
      if dryRun {
        return Ok(true);
      }
      var uploaded := UploadFiles(id, files);
      if uploaded.Err? {
        return uploaded;
      }
      var deleted := DeleteResources(SortedKeys(oldIds));
      Logged(old(client.log), Steps(client, UploadCalls(id, files)).calls, Steps(client, DeleteCalls(SortedKeys(oldIds))).calls);
      return deleted;
    }

    /** The record changes of an overwrite, on the record read and on its copy. */
    method PrepareVersions(record: Object, isPublic: bool, env: Env) returns (r: Result<Versions>)
      ensures r == Prepare(record, isPublic, env.timeNow, env.identifier, env.today)
    {
      var existing := new Dataset(record);
      var draft := new Dataset(Detached(record));
      var _ :- SetEach(existing, ExistingExtras(isPublic, env.timeNow));
      var _ :- SetEach(draft, DraftExtras(isPublic, env.timeNow, env.identifier));
      var realTitle :- GetString(draft.record, "title");
      draft.record := draft.record["title" := JStr(realTitle + " " + Dates.Iso(env.today))];
      return Ok(Versions(existing.record, draft.record, realTitle));
    }

    /** What overwritePublic reads for its dry-run log lines. */
    method ReportDryRun(v: Versions) returns (r: Result<bool>)
      ensures r == DryRunReport(v)
    {
      var draft := new Dataset(v.draft);
      var existing := new Dataset(v.existing);
      var title :- GetString(v.draft, "title");
      var issued :- draft.GetExtrasValue("issued");
      var start :- draft.GetExtrasValue("temporal_start");
      var end :- draft.GetExtrasValue("temporal_end");
      var oldStart :- existing.GetExtrasValue("temporal_start");
      var oldEnd :- existing.GetExtrasValue("temporal_end");
      return Ok(true);
    }

    /** One call of a planned sequence, after the calls before it ended normally. */
    method SendPlanned(call: Call, ghost plan: seq<Call>, ghost k: nat, ghost base: seq<Call>) returns (r: Result<bool>)
      requires k < |plan| && plan[k] == call
      requires Steps(client, plan[..k]).outcome == Ok(true) && client.log == base + Steps(client, plan[..k]).calls
      modifies client
      ensures client.log == base + Steps(client, plan[..k + 1]).calls
      ensures r.Ok? ==> Steps(client, plan[..k + 1]).outcome == Ok(true)
      ensures r.Err? ==> Steps(client, plan) == Steps(client, plan[..k + 1]) && Steps(client, plan).outcome == Err(r.error)
    {
      r := client.Send(call);
      Advance(client, plan, k, base, client.log);
    }

    /** The first block of a non-dry overwrite: create the new dataset, then give it its real title. */
    method CreateDraft(v: Versions) returns (r: Result<string>)
      modifies client
      ensures client.log == old(client.log) + Steps(client, DraftCalls(client.createdId, v)).calls
      ensures r.Ok? <==> Steps(client, DraftCalls(client.createdId, v)).outcome.Ok?
      ensures r.Ok? ==> r.value == client.createdId
      ensures r.Err? ==> Steps(client, DraftCalls(client.createdId, v)).outcome == Err(r.error)
    {
      ghost var plan := DraftCalls(client.createdId, v);
      assert plan[..0] == [] && plan[..2] == plan;
      var created := client.CreatePackage(v.draft);
      Advance(client, plan, 0, old(client.log), client.log);
      if created.Err? {
        return created;
      }
      var renamed := SendPlanned(Retitle(created.value, v.realTitle), plan, 1, old(client.log));
      if renamed.Err? {
        return Err(renamed.error);
      }
      return created;
    }

    /** The rest of a non-dry overwrite: upload the files to the new dataset, then the two closing calls. */
    method CompletePublishing(newId: string, coll: string, v: Versions, isPublic: bool, files: Listing) returns (r: Result<bool>)
      modifies client
      ensures client.log == old(client.log) + Steps(client, UploadCalls(newId, files) + Finale(newId, coll, v, isPublic)).calls
      ensures r == Steps(client, UploadCalls(newId, files) + Finale(newId, coll, v, isPublic)).outcome
    {
      ghost var ups := UploadCalls(newId, files);
      ghost var plan := ups + Finale(newId, coll, v, isPublic);
      assert plan[0..|files|] == ups && plan[..0] == [] && plan[..|files| + 2] == plan;
      var uploaded := UploadFiles(newId, files);
      AdvanceMany(client, plan, 0, |files|, old(client.log), client.log);
      if uploaded.Err? {
        return uploaded;
      }
      StepsOk(client, plan[..|files|]);
      var a := SendPlanned(if isPublic then Attach(newId, coll) else Update(v.existing), plan, |files|, old(client.log));
      if a.Err? {
        return a;
      }
      var b := SendPlanned(if isPublic then Update(v.existing) else Attach(newId, coll), plan, |files| + 1, old(client.log));
      if b.Err? {
        return b;
      }
      return Ok(true);
    }

    /** overwritePublic (isPublic) and overwritePrivate. */
    method Overwrite(isPublic: bool, collectionId: Option<string>, files: Listing, env: Env) returns (r: Result<bool>)
      modifies client
      ensures client.log == old(client.log) + OverwriteRun(client, dryRun, isPublic, collectionId, files, env).calls
      ensures r == OverwriteRun(client, dryRun, isPublic, collectionId, files, env).outcome
    {
      if BlankOpt(collectionId) {
        return Ok(false);
      }
      var coll := collectionId.value;
      var newest := client.FindNewestDataset(coll);
      if newest.Err? || newest.value.None? {
        return if newest.Err? then Err(newest.error) else Ok(false);
      }
      var newestId := newest.value.value;
      r := OverwriteNewest(isPublic, coll, newestId, files, env);
      Logged(old(client.log), [FindNewest(coll)], FromNewest(client, dryRun, isPublic, coll, newestId, files, env).calls);
    }

    /** An overwrite once the collection's newest member is known. */
    method OverwriteNewest(isPublic: bool, coll: string, newestId: string, files: Listing, env: Env) returns (r: Result<bool>)
      modifies client
      ensures client.log == old(client.log) + FromNewest(client, dryRun, isPublic, coll, newestId, files, env).calls
      ensures r == FromNewest(client, dryRun, isPublic, coll, newestId, files, env).outcome
    {
      var found := client.ReadDataset(newestId);
      if found.Err? || found.value.None? {
        return if found.Err? then Err(found.error) else Err(NoRecord);
      }
      var existing := found.value.value;
      r := ReplaceNewest(isPublic, coll, existing, files, env);
      Logged(old(client.log), [Read(newestId)], Replace(client, dryRun, isPublic, coll, existing, files, env).calls);
    }

    /** An overwrite once the newest member's record is read. */
    method ReplaceNewest(isPublic: bool, coll: string, existing: Object, files: Listing, env: Env) returns (r: Result<bool>)
      modifies client
      ensures client.log == old(client.log) + Replace(client, dryRun, isPublic, coll, existing, files, env).calls
      ensures r == Replace(client, dryRun, isPublic, coll, existing, files, env).outcome
    {
      var v := PrepareVersions(existing, isPublic, env);
      if v.Err? {
        return Err(v.error);
      }
      if dryRun {
        if isPublic {
          var report := ReportDryRun(v.value);
          if report.Err? {
            return Err(report.error);
          }
        }
        return Ok(true);
      }
      r := PublishVersions(coll, v.value, isPublic, files);
    }

    /** A non-dry overwrite once the records are prepared: create, rename, upload, then the two closing calls. */
    method PublishVersions(coll: string, v: Versions, isPublic: bool, files: Listing) returns (r: Result<bool>)
      modifies client
      ensures client.log == old(client.log) + Publish(client, coll, v, isPublic, files).calls
      ensures r == Publish(client, coll, v, isPublic, files).outcome
    {
      ghost var draftCalls := DraftCalls(client.createdId, v);
      ghost var rest := UploadCalls(client.createdId, files) + Finale(client.createdId, coll, v, isPublic);
      assert PublishCalls(client.createdId, coll, v, isPublic, files) == draftCalls + rest;
      PublishIsSteps(client, coll, v, isPublic, files);
      StepsConcat(client, draftCalls, rest);
      var newId := CreateDraft(v);
      if newId.Err? {
        return Err(newId.error);
      }
      StepsOk(client, draftCalls);
      r := CompletePublishing(newId.value, coll, v, isPublic, files);
      Logged(old(client.log), Steps(client, draftCalls).calls, Steps(client, rest).calls);
    }

    /** The strategy for the job's type and visibility (the dispatch inside work). */
    method Dispatch(job: Job, files: Listing, env: Env) returns (r: Result<bool>)
      modifies client
      ensures client.log == old(client.log) + Orchestration.Dispatch(client, dryRun, job, files, env).calls
      ensures r == Orchestration.Dispatch(client, dryRun, job, files, env).outcome
    {
      if job.kind == Some(APPEND) {
        if job.isPrivate {
          r := AppendPrivate(job.datasetId, env.timeNow, files);
        } else {
          r := AppendPublic(job.datasetId, env.timeNow);
        }
      } else if job.kind == Some(OVERWRITE) {
        r := Overwrite(!job.isPrivate, job.collectionId, files, env);
      } else {
        r := Ok(false);
      }
    }

    /** The copy loop: each scratch file into the job's cache directory, until one is not a regular file. */
    method CopyFiles(id: string, files: Listing) returns (failure: Option<string>)
      requires id in cache
      modifies this
      ensures cache == old(cache)[id := CopyAll(old(cache)[id], files).dir]
      ensures failure == CopyAll(old(cache)[id], files).failure
      ensures scratch == old(scratch)
    {
      ghost var start := cache[id];
      var i := 0;
      while i < |files|
        invariant 0 <= i <= |files| && id in cache
        invariant CopyAll(start, files[..i]).failure.None?
        invariant cache == old(cache)[id := CopyAll(start, files[..i]).dir]
        invariant scratch == old(scratch)
      {
        assert files[..i + 1][..i] == files[..i];
        if !files[i].isFile {
          CopyAllFailedPrefix(start, files, i + 1);
          return Some("source is not a regular file: " + files[i].name);
        }
        cache := cache[id := CopyInto(cache[id], files[i])];
        i := i + 1;
      }
      assert files[..i] == files;
      return None;
    }

    /** work(update): one job, start to end. */
    method Work(job: Job, env: Env, classes: string -> ClassInfo, generate: Generator -> Result<Listing>) returns (r: Result<bool>)
      modifies this, client
      ensures var o := Orchestration.Work(client, dryRun, old(cache), job, env, classes, generate);
        && client.log == old(client.log) + o.calls
        && r == o.result
        && cache == o.cache
        && scratch == match o.scratch
          case NotCreated => old(scratch)
          case Left => old(scratch) + {env.scratchName}
          case Removed => old(scratch) + {env.scratchName} - {env.scratchName}
    {
      if !Scheduled(job, env.today) {
        return Ok(false);
      }
      var selected := SelectGenerator(job, classes);
      if selected.Err? {
        return Err(selected.error);
      }
      if selected.value.None? {
        return Ok(false);
      }
      scratch := scratch + {env.scratchName};
      var generated := generate(selected.value.value);
      if generated.Err? {
        return Ok(false);
      }
      var files := generated.value;
      if JobId(job).None? {
        return Err(NullId);
      }
      var id := JobId(job).value;
      r := Refresh(id, job, files, env);
    }

    /** The comparison with the cached copy, and the strategy when the generated files differ from it. */
    method Compare(id: string, job: Job, files: Listing, env: Env) returns (r: Result<bool>)
      modifies this, client
      ensures var run := Compared(client, dryRun, old(cache), job, env, files, id);
        && client.log == old(client.log) + run.calls
        && r == run.outcome
      ensures cache == old(cache)[id := if id in old(cache) then old(cache)[id] else []]
      ensures scratch == old(scratch)
    {
      if id in cache {
        var equal := DirectoriesAreEqual(Some(files), Some(cache[id]));
        if !equal {
          r := Dispatch(job, files, env);
        } else {
          r := Ok(true);
        }
      } else {
        cache := cache[id := []];
        r := Ok(false);
      }
    }

    /** work after generation: compare with the cached copy, publish, refresh the copy, remove the scratch directory. */
    method Refresh(id: string, job: Job, files: Listing, env: Env) returns (r: Result<bool>)
      modifies this, client
      ensures var o := PublishGenerated(client, dryRun, old(cache), job, env, files, id);
        && client.log == old(client.log) + o.calls
        && r == o.result
        && cache == o.cache
        && scratch == if o.scratch == Left then old(scratch) else old(scratch) - {env.scratchName}
    {
      var success := Compare(id, job, files, env);
      r := Finish(id, files, env, success, Compared(client, dryRun, old(cache), job, env, files, id), old(cache));
    }

    /** The refresh of the cached copy and the removal of the scratch directory, once the comparison has ended as run. */
    method Finish(id: string, files: Listing, env: Env, success: Result<bool>, ghost run: Run, ghost before: map<string, Listing>)
      returns (r: Result<bool>)
      requires success == run.outcome
      requires cache == before[id := if id in before then before[id] else []]
      modifies this
      ensures var o := Refreshed(run, dryRun, before, files, id);
        && r == o.result
        && o.calls == run.calls
        && cache == o.cache
        && scratch == if o.scratch == Left then old(scratch) else old(scratch) - {env.scratchName}
    {
      if success.Err? {
        return success;
      }
      if !dryRun {
        var failure := CopyFiles(id, files);
        if failure.Some? {
          return Err(failure.value);
        }
      }
      scratch := scratch - {env.scratchName};
      return success;
    }
  }
}
