# Open data updater — a Dafny model

The updater keeps datasets in a CKAN open-data catalog current. Every configured job names a
dataset collection and a generator. The generator writes the dataset's distribution files into a
fresh scratch directory. The new files are compared with the copy cached from the previous run. When
they differ, the new files are published to the catalog by one of four strategies:

- append public: the single dataset's `modified` extra, and its `temporal_end` when that is set, are
  stamped with the current time and the record is written back;
- append private: the new files are uploaded to the same dataset and its old resources are deleted;
  the stamped record is not written back;
- overwrite public and overwrite private: a NEW dataset is created as a copy of the collection's newest
  one, under a title with the date appended. It is created, given back its plain title, filled with
  the files and put into the collection, and the old record is written back with new time stamps.
  The two differ in which stamps go on which record, and in whether the collection or the old record
  is written first.

After a successful publication the cache is refreshed.

This project models that core in Dafny:

- The orchestrator (`OpenDataUpdatesCkan`) becomes the `Orchestration`, `Updates`, `Publishing`,
  `Extras`, `Files` and `Jobs` modules.
- The catalog client's decisions (`CkanAPI`) become the `CkanApi` module: pure functions over JSON
  responses, plus methods for its loops.
- The catalog itself is a class, `Catalog.Client`. It holds the remote datasets and the log of calls
  made to it. Answers that do not follow from that state are fixed oracles of the object: whether a
  create or upload is accepted, the id the server assigns, the `Location` header.
- Each generator is one module. It has the generator's loops as methods, each proved against a
  specification function. The format the generator writes is stated by lemmas: what the text
  contains and how it reads back.
- The support modules `Wrappers`, `Text`, `Json`, `CsvText`, `Dates` and `Sorting` are the string,
  JSON, CSV, calendar and sorting helpers the generators rely on.

Where the design description and the code disagree, the model follows the code:

- An exception thrown by a publication strategy is not caught inside `work`. It ends the whole run,
  not only the failing job: `main` does not catch it around `work` (`Orchestration.ChangedDispatches`).
- The append-private strategy never calls `updatePackage` after attaching the resources. That call is
  commented out at `src/main/java/de/landsh/opendata/OpenDataUpdatesCkan.java:214`. The repository's
  unit test for this strategy expects one; the model follows the code and makes none.
- `work` ignores the boolean returned by `generateDistributions`. A generator reporting `false` is
  treated like one reporting `true`.
- The cache is overwritten whenever the run is not a dry run, also when no publication happened.
- The two overwrite strategies issue their final calls in opposite orders:
  - public: attach the new resources, then update the dataset;
  - private: update, then attach.

## Model

| member | source | states |
|---|---|---|
| Files.DirectoriesAreEqual | src/main/java/de/landsh/opendata/OpenDataUpdatesCkan.java:390-406 | the loop answers exactly DirectoriesEqual: both listings exist, have the same length and, sorted by name, agree file by file |
| Files.FilesPairwiseEqual | src/main/java/de/landsh/opendata/OpenDataUpdatesCkan.java:401-405 | the loop over equally long sorted listings answers true exactly when every pair is equal (Pairwise) |
| Files.SortKeepsLength | src/main/java/de/landsh/opendata/OpenDataUpdatesCkan.java:396-398 | sorting a listing by name keeps its length, so the length comparison after sorting compares the listings |
| Files.DirectoriesEqualReflexive | src/main/java/de/landsh/opendata/OpenDataUpdatesCkan.java:390-415 | a listing of plain files equals itself |
| Files.DirectoriesEqualSymmetric | src/main/java/de/landsh/opendata/OpenDataUpdatesCkan.java:390-415 | the comparison does not depend on the order of its arguments |
| Files.NonFileNeverEqual | src/main/java/de/landsh/opendata/OpenDataUpdatesCkan.java:408-415 | a directory holding something that is not a plain file never equals anything, since filesAreEqual is false for it |
| Files.NamesNotCompared | src/main/java/de/landsh/opendata/OpenDataUpdatesCkan.java:408-415 | two files with equal content compare equal whatever their names: only the digests are compared |
| Files.MimeTypeRoundTrip | src/main/java/de/landsh/opendata/OpenDataUpdatesCkan.java:95-111 | PDF, CSV, JSON and XML get four distinct MIME types from which the format can be read back; every other format, the empty one included, gets application/octet-stream |
| Files.FormatOfExtension | src/main/java/de/landsh/opendata/OpenDataUpdatesCkan.java:196 | the upload format of "base.ext" (ext without a dot) is ext with its ASCII letters upper-cased |
| Files.FormatWithoutDot | src/main/java/de/landsh/opendata/OpenDataUpdatesCkan.java:196 | a file name without a dot has the empty format |
| Files.Lookup | src/main/java/de/landsh/opendata/OpenDataUpdatesCkan.java:501-513 | a file found in a directory by name has that name |
| Files.CopyIntoLookup | src/main/java/de/landsh/opendata/OpenDataUpdatesCkan.java:509-511 | copying a file into a directory replaces the entry of that name and leaves every other name as it was |
| Files.CopyAllFailedPrefix | src/main/java/de/landsh/opendata/OpenDataUpdatesCkan.java:509-511 | once a copy fails, the copies after it are not made |
| Files.CopyAllLookup | src/main/java/de/landsh/opendata/OpenDataUpdatesCkan.java:501-513 | copying a listing of distinct plain files succeeds, after which each copied name holds the copied file and every other name is unchanged |
| Jobs.NewJob | src/main/java/de/landsh/opendata/DatasetUpdate.java:10-32 | a fresh job is active, public, has format "csv" and nothing else set |
| Jobs.JobId | src/main/java/de/landsh/opendata/OpenDataUpdatesCkan.java:430 | the job's id is its collection id when it has one, its dataset id otherwise |
| Catalog.Client.Throws | src/main/java/de/landsh/opendata/ckan/CkanAPI.java:238-244 | an update of a record without "id" throws "Dataset without id", and one whose "id" is not a string throws getString's error; every other call throws only as the catalog's failure oracle says |
| Catalog.Client.Answer | src/main/java/de/landsh/opendata/ckan/CkanAPI.java:238-253 | a call answers its value exactly when it throws nothing |
| Catalog.Client.ReadDataset | src/main/java/de/landsh/opendata/ckan/CkanAPI.java:147-155 | reading a dataset logs the call and answers the stored record |
| Catalog.Client.FindNewestDataset | src/main/java/de/landsh/opendata/ckan/CkanAPI.java:129-145 | looking up the newest member of a collection logs the call and answers the collection's newest id |
| Catalog.Client.Send | src/main/java/de/landsh/opendata/ckan/CkanAPI.java:350-379 | an upload, deletion, update, retitle or attachment logs the call and answers the server's success flag |
| Catalog.Client.CreatePackage | src/main/java/de/landsh/opendata/ckan/CkanAPI.java:255-268 | creating a package logs the call and answers the id the server assigns |
| CkanApi.IsResponseSuccess | src/main/java/de/landsh/opendata/ckan/CkanAPI.java:302-304 | true exactly when a response exists and its "success" field is true; false when the response or the field is missing |
| CkanApi.ReadDataset | src/main/java/de/landsh/opendata/ckan/CkanAPI.java:147-155 | no "result" gives no dataset; an object "result" is returned as the dataset |
| CkanApi.FindNewestDataset | src/main/java/de/landsh/opendata/ckan/CkanAPI.java:129-145 | requests GET <base>/collection/<id>/aktuell; without a Location header there is no id, otherwise the id is the text after the last '/' of the Location, and empty when the Location has no '/' |
| CkanApi.GetCollection | src/main/java/de/landsh/opendata/ckan/CkanAPI.java:310-325 | no "result" gives null; an empty relationship list gives null; otherwise the first relationship's `__extras.object_package_id`: null when absent or null, the string when it is one, an exception when it is anything else or when the result, the list, the relationship or its extras are malformed |
| CkanApi.ChangeMembership | src/main/java/de/landsh/opendata/ckan/CkanAPI.java:174-235 | adding a dataset to or removing it from a collection first shows both; a missing dataset or a missing collection is an error naming it, and a collection record of another type is the error "<id> is no collection.", each without further requests; otherwise the relationship is posted and its success answered |
| CkanApi.UpdatePackage | src/main/java/de/landsh/opendata/ckan/CkanAPI.java:238-253 | a record without "id" is refused before any request, and a non-string "id" throws before any request; otherwise one POST to package_update?id=<id> with the record as body, answered by the success flag |
| CkanApi.CreatedId | src/main/java/de/landsh/opendata/ckan/CkanAPI.java:255-268 | the new package's id is the response's result.id, and only when "success" is true |
| CkanApi.ResultId | src/main/java/de/landsh/opendata/ckan/CkanAPI.java:263-267 | an id read from a response is the string at result.id |
| CkanApi.CreatePackage | src/main/java/de/landsh/opendata/ckan/CkanAPI.java:255-268 | one POST of the record to package_create; a refusal is an error, a success yields the created id |
| CkanApi.CreateCollection | src/main/java/de/landsh/opendata/ckan/CkanAPI.java:270-297 | a blank collection id is refused before any request; an existing collection is not created again; otherwise the collection is created with the given title and organisation and its id is `result.id` of the answer; a failed show throws before the create |
| CkanApi.CreateCollectionIdempotent | src/main/java/de/landsh/opendata/ckan/CkanAPI.java:270-297 | creating a collection twice against the same catalog makes the second call a show and nothing else |
| CkanApi.ChangeTitle | src/main/java/de/landsh/opendata/ckan/CkanAPI.java:441-451 | shows the package; a missing package answers false; otherwise the package, with the new title, is written back through package_update |
| CkanApi.ChangeTitleWritesBackRecord | src/main/java/de/landsh/opendata/ckan/CkanAPI.java:441-451 | the write-back is one POST whose body is the shown record with only its "title" replaced |
| CkanApi.ResourceArray | src/main/java/de/landsh/opendata/ckan/CkanAPI.java:381-392 | a dataset's resources are its "resources" array, or else the "resources" array of its "result" object; an exception when neither exists |
| CkanApi.ParseResource | src/main/java/de/landsh/opendata/ckan/CkanAPI.java:393-407 | a resource is read from its id, name, format, access_url (or url when access_url is missing), trimmed hash, optional mimetype and size fields; it is read exactly when each of them has the type the getters demand |
| CkanApi.GetResources | src/main/java/de/landsh/opendata/ckan/CkanAPI.java:381-410 | the loop returns every entry of the resources array parsed, in order, or the first parse error |
| CkanApi.GetResource | src/main/java/de/landsh/opendata/ckan/CkanAPI.java:418-432 | no resources gives none and only then; more than one is an error when failIfMoreThanOne is set; an unreadable array or any malformed entry throws; otherwise the first resource parsed |
| CkanApi.HexDigest | src/main/java/de/landsh/opendata/ckan/CkanAPI.java:99-117 | the loop builds exactly the lower-case hex text of the digest |
| CkanApi.HexAt | src/main/java/de/landsh/opendata/ckan/CkanAPI.java:99-117 | the hex text is twice as long as the digest, byte i giving characters 2i and 2i+1 as its high and low nibble, all lower-case hex digits |
| CkanApi.HexInjective | src/main/java/de/landsh/opendata/ckan/CkanAPI.java:99-117 | two digests with the same hex text are equal, so comparing checksums as text compares the digests |
| Extras.EntryKey | src/main/java/de/landsh/opendata/OpenDataUpdatesCkan.java:552-556 | an entry yields its key exactly when it is an object with a string "key" |
| Extras.LastOf | src/main/java/de/landsh/opendata/OpenDataUpdatesCkan.java:548-567 | the position found is the last entry with the key; none exactly when no entry has it |
| Extras.SetExtraSucceeds | src/main/java/de/landsh/opendata/OpenDataUpdatesCkan.java:548-567 | setExtraValue throws exactly when the record's extras are not a list of keyed objects |
| Extras.SetExtraReplacesLast | src/main/java/de/landsh/opendata/OpenDataUpdatesCkan.java:548-567 | when entries carry the key, exactly the last of them is replaced by the new pair, and every other entry stays |
| Extras.SetExtraAppends | src/main/java/de/landsh/opendata/OpenDataUpdatesCkan.java:548-567 | when no entry carries the key, exactly one entry with the key and value is appended |
| Extras.FirstValueIsFirst | src/main/java/de/landsh/opendata/OpenDataUpdatesCkan.java:84-93 | getExtrasValue answers from the first entry carrying the key |
| Extras.FirstValueMissing | src/main/java/de/landsh/opendata/OpenDataUpdatesCkan.java:84-93 | when no entry carries the key, getExtrasValue answers null |
| Extras.SetExtraKeepsShape | src/main/java/de/landsh/opendata/OpenDataUpdatesCkan.java:548-567 | after setExtraValue the extras are still well formed and no key gains a second entry |
| Extras.GetAfterSet | src/main/java/de/landsh/opendata/OpenDataUpdatesCkan.java:84-93 | with at most one entry for the key, getExtrasValue reads back what setExtraValue wrote |
| Extras.GetAfterSetOther | src/main/java/de/landsh/opendata/OpenDataUpdatesCkan.java:548-567 | setExtraValue of one key does not change what getExtrasValue answers for any other key |
| Extras.Dataset.SetExtraValue | src/main/java/de/landsh/opendata/OpenDataUpdatesCkan.java:548-567 | the loop changes the record exactly as SetExtra says, and leaves it unchanged when it throws |
| Extras.Dataset.GetExtrasValue | src/main/java/de/landsh/opendata/OpenDataUpdatesCkan.java:84-93 | the loop answers exactly GetExtra: the value of the first entry with the key, null when there is none |
| Publishing.StepsTrace | src/main/java/de/landsh/opendata/OpenDataUpdatesCkan.java:195-211 | a loop of server calls makes a prefix of its calls, all of them and ends normally exactly when none throws |
| Publishing.StepsFailedPrefix | src/main/java/de/landsh/opendata/OpenDataUpdatesCkan.java:195-211 | once a call of the loop throws, the calls after it are never made |
| Publishing.SetExtraOnlyExtras | src/main/java/de/landsh/opendata/OpenDataUpdatesCkan.java:548-567 | setExtraValue changes nothing outside the extras |
| Publishing.SetExtraFacts | src/main/java/de/landsh/opendata/OpenDataUpdatesCkan.java:548-567 | one setExtraValue on a record with at most one entry per key: the key reads the new value, every other key what it read before, nothing outside the extras changes |
| Publishing.StampSucceeds | src/main/java/de/landsh/opendata/OpenDataUpdatesCkan.java:144-151 | stamping "modified" and "temporal_end" throws exactly when the extras are malformed or the temporal_end entry has no string value |
| Publishing.StampEffect | src/main/java/de/landsh/opendata/OpenDataUpdatesCkan.java:144-151 | after the stamp "modified" reads now, "temporal_end" reads now exactly when it was non-empty before, and nothing else changes |
| Publishing.SetExtrasFacts | src/main/java/de/landsh/opendata/OpenDataUpdatesCkan.java:248-255 | setting several distinct keys: each reads its value, every other key reads what it read before, nothing outside the extras changes |
| Publishing.DetachedKeepsExtras | src/main/java/de/landsh/opendata/OpenDataUpdatesCkan.java:243-246 | the copy made for the new dataset keeps the extras of the existing one |
| Publishing.TitledFacts | src/main/java/de/landsh/opendata/OpenDataUpdatesCkan.java:257-259 | the new dataset's title is the real title followed by a space and today's ISO date, and its other fields are those of the copy |
| Publishing.PrepareFacts | src/main/java/de/landsh/opendata/OpenDataUpdatesCkan.java:243-259 | both overwrites prepare the two records, each key they set reading back its value |
| Publishing.PreparePublic | src/main/java/de/landsh/opendata/OpenDataUpdatesCkan.java:243-259 | overwritePublic: the existing record gets modified, temporal_start and issued = now; the new one modified, issued, temporal_end = now and the fresh identifier; every other extra and field is kept |
| Publishing.PreparePrivate | src/main/java/de/landsh/opendata/OpenDataUpdatesCkan.java:334-348 | overwritePrivate: the existing record gets only temporal_end = now; the new one modified, issued, temporal_start = now and the fresh identifier |
| Publishing.ResourceIdsIgnoreExtras | src/main/java/de/landsh/opendata/OpenDataUpdatesCkan.java:191 | the snapshot of resource ids does not depend on the extras being stamped |
| Publishing.DeletesEachOnce | src/main/java/de/landsh/opendata/OpenDataUpdatesCkan.java:207-211 | the old resources are each deleted exactly once |
| Publishing.DeleteCallsOf | src/main/java/de/landsh/opendata/OpenDataUpdatesCkan.java:207-211 | for ids in any order: one delete per id, every id deleted, and no two deletes alike when the ids are distinct |
| Publishing.UploadsThenDeletes | src/main/java/de/landsh/opendata/OpenDataUpdatesCkan.java:190-211 | the resource exchange makes uploads and then deletes, never an upload after a delete |
| Publishing.StampKeepsFields | src/main/java/de/landsh/opendata/OpenDataUpdatesCkan.java:144-151 | the stamp changes nothing outside the extras |
| Publishing.AppendPublicCalls | src/main/java/de/landsh/opendata/OpenDataUpdatesCkan.java:130-159 | appendPublic: a blank id answers false without calls; otherwise it reads the dataset first, answers false when it is missing, never uploads or deletes, and writes back at most once, never in a dry run |
| Publishing.AppendPublicSucceeds | src/main/java/de/landsh/opendata/OpenDataUpdatesCkan.java:130-159 | on a found, well-formed dataset: one read, one write-back of the stamped record (none in a dry run), and true unless the write throws |
| Publishing.ExchangeCalls | src/main/java/de/landsh/opendata/OpenDataUpdatesCkan.java:190-211 | the exchange makes only uploads, then only deletes, and none in a dry run |
| Publishing.ExchangeSucceeds | src/main/java/de/landsh/opendata/OpenDataUpdatesCkan.java:190-211 | an exchange whose calls do not throw uploads every file, then deletes every old id, and answers true |
| Publishing.ReplaceResourcesCalls | src/main/java/de/landsh/opendata/OpenDataUpdatesCkan.java:190-211 | appendPrivate's resource exchange makes only uploads, then only deletes, and none in a dry run |
| Publishing.ReplaceResourcesSucceeds | src/main/java/de/landsh/opendata/OpenDataUpdatesCkan.java:190-211 | when no call throws: an upload of every scratch file in listing order, then a delete of every old resource id |
| Publishing.AppendPrivateCalls | src/main/java/de/landsh/opendata/OpenDataUpdatesCkan.java:167-217 | appendPrivate never writes the record back, makes only the read in a dry run, and never uploads after it started deleting; blank id and missing dataset answer false |
| Publishing.AppendPrivateSucceeds | src/main/java/de/landsh/opendata/OpenDataUpdatesCkan.java:167-217 | on a found, well-formed dataset whose calls do not throw: the read, the uploads to the dataset, the deletes of the old resources, and true |
| Publishing.PublishOrder | src/main/java/de/landsh/opendata/OpenDataUpdatesCkan.java:265-299 | publishing follows its plan: create, rename, the uploads, then the closing attach and update (in the order of each variant) |
| Publishing.OverwriteNotFound | src/main/java/de/landsh/opendata/OpenDataUpdatesCkan.java:226-239 | a blank collection id, or a collection without a newest member, answers false; a missing member record throws |
| Publishing.OverwriteDryRun | src/main/java/de/landsh/opendata/OpenDataUpdatesCkan.java:265-304 | a dry run of either overwrite only looks up the newest member and reads it |
| Publishing.OverwriteSucceeds | src/main/java/de/landsh/opendata/OpenDataUpdatesCkan.java:226-308 | an overwrite that finds the newest member and whose calls do not throw: lookup, read, then create, rename, uploads to the new id, and the two closing calls, answering true |
| Publishing.FromNewestSucceeds | src/main/java/de/landsh/opendata/OpenDataUpdatesCkan.java:239-306 | from the read of the newest member on, a run without throwing calls is the read followed by the whole publishing plan |
| Publishing.ReplaceSucceeds | src/main/java/de/landsh/opendata/OpenDataUpdatesCkan.java:243-306 | once the records are prepared and no call throws, the replacement is the whole publishing plan, ending true |
| Updates.MarkModified | src/main/java/de/landsh/opendata/OpenDataUpdatesCkan.java:144-151 | the record, changed in place, ends as Stamp says (modified = now, temporal_end = now when non-empty), or the stamp's exception is raised |
| Updates.SetEach | src/main/java/de/landsh/opendata/OpenDataUpdatesCkan.java:248-255 | the setExtraValue statements of an overwrite, made in place, end with the record SetExtras describes, or with the first exception |
| Updates.Updater.SendAll | src/main/java/de/landsh/opendata/OpenDataUpdatesCkan.java:282-293 | a loop of catalog calls logs exactly the calls Steps gives, in order, and ends with their outcome, stopping at the first exception |
| Updates.Updater.UploadFiles | src/main/java/de/landsh/opendata/OpenDataUpdatesCkan.java:280-294 | the upload loop makes exactly one upload per scratch file, in listing order, with format and MIME type from the name, stopping at the first exception |
| Updates.Updater.DeleteResources | src/main/java/de/landsh/opendata/OpenDataUpdatesCkan.java:207-211 | the delete loop makes exactly one delete per old resource id, stopping at the first exception |
| Updates.Updater.AppendPublic | src/main/java/de/landsh/opendata/OpenDataUpdatesCkan.java:130-159 | the calls logged and the answer are those of AppendPublicRun |
| Updates.Updater.AppendPrivate | src/main/java/de/landsh/opendata/OpenDataUpdatesCkan.java:167-217 | the calls logged and the answer are those of AppendPrivateRun |
| Updates.Updater.ExchangeResources | src/main/java/de/landsh/opendata/OpenDataUpdatesCkan.java:190-211 | the calls logged and the answer are those of ReplaceResources |
| Updates.Updater.UploadThenDelete | src/main/java/de/landsh/opendata/OpenDataUpdatesCkan.java:192-211 | the calls logged are those of Exchange, and it throws exactly when Exchange does |
| Updates.Updater.PrepareVersions | src/main/java/de/landsh/opendata/OpenDataUpdatesCkan.java:243-259 | the two records built are those of Prepare |
| Updates.Updater.CreateDraft | src/main/java/de/landsh/opendata/OpenDataUpdatesCkan.java:265-270 | creates the new dataset, then gives it its real title; answers the id the server assigned |
| Updates.Updater.CompletePublishing | src/main/java/de/landsh/opendata/OpenDataUpdatesCkan.java:280-299 | uploads the files to the new dataset, then makes the two closing calls, as planned |
| Updates.Updater.Overwrite | src/main/java/de/landsh/opendata/OpenDataUpdatesCkan.java:226-385 | overwritePublic and overwritePrivate: the calls logged and the answer are those of OverwriteRun |
| Updates.Updater.OverwriteNewest | src/main/java/de/landsh/opendata/OpenDataUpdatesCkan.java:239-306 | once the newest member is known, the calls and answer are those of FromNewest |
| Updates.Updater.ReplaceNewest | src/main/java/de/landsh/opendata/OpenDataUpdatesCkan.java:243-306 | once the member is read, the calls and answer are those of Replace |
| Updates.Updater.PublishVersions | src/main/java/de/landsh/opendata/OpenDataUpdatesCkan.java:265-299 | the calls and answer are those of Publish |
| Updates.Updater.Dispatch | src/main/java/de/landsh/opendata/OpenDataUpdatesCkan.java:472-487 | the strategy run for the job's type and visibility makes the calls and gives the answer the dispatch function describes |
| Updates.Updater.CopyFiles | src/main/java/de/landsh/opendata/OpenDataUpdatesCkan.java:501-513 | the cache directory of the job ends as CopyAll says, and the copy failure, if any, is reported |
| Updates.Updater.Work | src/main/java/de/landsh/opendata/OpenDataUpdatesCkan.java:417-519 | one job start to end: the catalog calls, the answer, the cache and the scratch directories are those of Orchestration.Work |
| Updates.Updater.Refresh | src/main/java/de/landsh/opendata/OpenDataUpdatesCkan.java:463-519 | after generation: the calls, answer, cache and scratch directories are those of PublishGenerated |
| Updates.Updater.Compare | src/main/java/de/landsh/opendata/OpenDataUpdatesCkan.java:462-497 | the comparison with the cached copy: a missing copy only answers false (and creates the copy directory), an equal one calls nothing, otherwise the strategy for the job runs, as Compared says |
| Updates.Updater.Finish | src/main/java/de/landsh/opendata/OpenDataUpdatesCkan.java:499-519 | unless the comparison threw, the cached copy is refreshed (not in a dry run) and the scratch directory removed, as Refreshed says |
| Orchestration.FindGeneratorDynamically | src/main/java/de/landsh/opendata/OpenDataUpdatesCkan.java:521-546 | no name fails; a constructor that throws fails with its exception; a class found is instantiated under that name, through its (id, settings) constructor exactly when it has one, else its no-argument one; no class or no usable constructor gives none |
| Orchestration.SelectGeneratorFacts | src/main/java/de/landsh/opendata/OpenDataUpdatesCkan.java:432-450 | built-in generator names and their aliases never reach reflection, and fail exactly when their constructor reads missing generator arguments (all but JustDownloadGenerator), with a NullPointerException; every other name goes to reflection |
| Orchestration.WorkConstructorThrows | src/main/java/de/landsh/opendata/OpenDataUpdatesCkan.java:436-451 | a generator constructor that throws, built in on missing arguments or found by reflection, fails the job with its exception before the scratch directory exists: no catalog call, the cache untouched |
| Orchestration.WorkNotScheduled | src/main/java/de/landsh/opendata/OpenDataUpdatesCkan.java:419-428 | an inactive job, or one scheduled for another day of the month or week, does nothing and answers false |
| Orchestration.WorkUnknownGenerator | src/main/java/de/landsh/opendata/OpenDataUpdatesCkan.java:444-449 | a generator name reflection cannot instantiate fails the job before anything is generated |
| Orchestration.WorkGeneratorFails | src/main/java/de/landsh/opendata/OpenDataUpdatesCkan.java:456-461 | a generator that throws fails the job: no catalog call, the cache untouched, the scratch directory left behind |
| Orchestration.WorkGenerated | src/main/java/de/landsh/opendata/OpenDataUpdatesCkan.java:430-463 | once files are generated the run goes on with the job's id; a job without collection and dataset id throws |
| Orchestration.UnchangedPublishesNothing | src/main/java/de/landsh/opendata/OpenDataUpdatesCkan.java:488-491 | files equal to the cached copy: no catalog call and true; the copy is refreshed unless this is a dry run, and the scratch directory is removed |
| Orchestration.RegularFilesCopy | src/main/java/de/landsh/opendata/OpenDataUpdatesCkan.java:509-511 | copying only regular files never fails |
| Orchestration.MissingCacheFails | src/main/java/de/landsh/opendata/OpenDataUpdatesCkan.java:492-499 | without a cached copy the cache directory is created, nothing is published, the job answers false, and outside a dry run the files are copied in |
| Orchestration.NoStrategyFails | src/main/java/de/landsh/opendata/OpenDataUpdatesCkan.java:484-487 | changed files of a job whose type has no strategy: nothing published, the job answers false |
| Orchestration.ChangedDispatches | src/main/java/de/landsh/opendata/OpenDataUpdatesCkan.java:466-487 | changed files go to the strategy: the job makes exactly its calls; an exception from it ends the job with the cache untouched and the scratch directory left |
| Orchestration.CacheRefreshedUnlessDryRun | src/main/java/de/landsh/opendata/OpenDataUpdatesCkan.java:501-516 | the cache is refreshed unless this is a dry run or an exception escaped, even when the strategy answered false, and each file then sits in the cache |
| CsvSortLines.ContainsHeaderLine | src/main/java/de/landsh/opendata/update/CsvSortLines.java:20-26 | a job without arguments throws; otherwise there is a header line unless `no_header` reads as a true value |
| CsvSortLines.DataLines | src/main/java/de/landsh/opendata/update/CsvSortLines.java:38-46 | the lines sorted are all lines, or all but the first when there is a header line |
| CsvSortLines.GenerateDistributions | src/main/java/de/landsh/opendata/update/CsvSortLines.java:28-57 | a missing temporary file throws; otherwise the target file holds the sorted output of its lines |
| CsvSortLines.HeaderFirst | src/main/java/de/landsh/opendata/update/CsvSortLines.java:38-40 | with a header line the first input line comes out first and unchanged; an empty file yields the single line "null" |
| CsvSortLines.DataSortedPermutation | src/main/java/de/landsh/opendata/update/CsvSortLines.java:41-51 | the lines after the header are the data lines, each as often as in the input, in non-decreasing code-point order (String.compareTo's order for text without characters beyond U+FFFF) |
| CsvSortLines.OutputDetermined | src/main/java/de/landsh/opendata/update/CsvSortLines.java:47-51 | any sorted permutation of the data lines is what the file holds, so the output does not depend on the sort algorithm |
| CsvSortLines.SortIdempotent | src/main/java/de/landsh/opendata/update/CsvSortLines.java:28-57 | sorting the output once more changes nothing |
| CoronaWalker.EnterData | src/main/java/de/landsh/opendata/coronardeck/CoronaWalker.java:14-42 | the loops print exactly DataText: "{", the entries separated by ",\n", each as its quoted ARS and its pairs, then " }" |
| CoronaWalker.PrintEntry | src/main/java/de/landsh/opendata/coronardeck/CoronaWalker.java:25-38 | one entry prints its quoted ARS, its pairs separated by commas, each as quoted name, " : " and value, and the closing brace |
| CoronaWalker.DataFrame | src/main/java/de/landsh/opendata/coronardeck/CoronaWalker.java:16-41 | the text starts with "{" on a line of its own and ends with " }"; with no entries it is only that frame |
| CoronaWalker.OutputIsLines | src/main/java/de/landsh/opendata/coronardeck/CoronaWalker.java:14-42 | the text is exactly the frame lines and one line per entry, each entry but the last followed by a comma |
| CoronaWalker.ReadBackLines | src/main/java/de/landsh/opendata/coronardeck/CoronaWalker.java:14-42 | read back line by line the text gives one line per entry, in input order, plus the frame, when no key, name or value holds a line break |
| Excel2Csv.SheetNumber | src/main/java/de/landsh/opendata/update/Excel2CsvGenerator.java:22-30 | the sheet is 0 without arguments or without a `sheet` argument, otherwise the argument as NumberUtils.toInt reads it for ASCII digits (0 when it is not a number) |
| Excel2Csv.SheetNumberOfText | src/main/java/de/landsh/opendata/update/Excel2CsvGenerator.java:26 | a sheet number written in decimal within the int range is the sheet taken |
| Excel2Csv.CleanCellShape | src/main/java/de/landsh/opendata/update/Excel2CsvGenerator.java:44 | a cleaned cell holds no line feed and neither starts nor ends with a blank or a control character |
| Excel2Csv.Excel2Csv | src/main/java/de/landsh/opendata/update/Excel2CsvGenerator.java:32-60 | a sheet number out of range throws; otherwise the text written is the sheet's CSV text |
| Excel2Csv.WriteLine | src/main/java/de/landsh/opendata/update/Excel2CsvGenerator.java:40-56 | one row is written as its CSV line followed by a line feed |
| Excel2Csv.WriteRow | src/main/java/de/landsh/opendata/update/Excel2CsvGenerator.java:41-55 | the inner loop writes the cleaned cells, each quoted when it holds a comma, with a comma between two cells |
| Excel2Csv.AppendCell | src/main/java/de/landsh/opendata/update/Excel2CsvGenerator.java:45-51 | a cell holding the delimiter is enclosed in quotes, any other is written as it is |
| Excel2Csv.ReadBack | src/main/java/de/landsh/opendata/update/Excel2CsvGenerator.java:32-60 | read back line by line and field by field, the CSV gives exactly the cleaned cells of every row, when no cell holds a quote or carriage return and no row is empty |
| Excel2Csv.GenerateDistributions | src/main/java/de/landsh/opendata/update/Excel2CsvGenerator.java:62-79 | a failed download answers false and writes nothing; otherwise the chosen sheet goes to distributionName + ".csv", throwing for a sheet out of range |
| ZufishServices.DeliveryChannel | src/main/java/de/landsh/opendata/update/ZufishServices.java:36-41 | the key of deliveryChannel.communicationSystem.type, "" when the path stops early, an error when a member on it is not an object |
| ZufishServices.ReadService | src/main/java/de/landsh/opendata/update/ZufishServices.java:30-44 | an element is read exactly when its "object" has the members the loop reads; the id is kept as its text and hasPaymentMethod says whether paymentMethods is non-empty |
| ZufishServices.GenerateDistributions | src/main/java/de/landsh/opendata/update/ZufishServices.java:20-65 | all elements readable: the CSV is the header and one row per service, the JSON one record per service; otherwise the run throws at the first unreadable element, with the CSV holding the rows before it |
| ZufishServices.OnePerElement | src/main/java/de/landsh/opendata/update/ZufishServices.java:30-57 | when every element can be read, the CSV holds exactly one row and the JSON exactly one record per element, in input order |
| ZufishServices.AnyFailureFails | src/main/java/de/landsh/opendata/update/ZufishServices.java:30-44 | any element that cannot be read fails the whole run |
| ZufishServices.RecordRoundTrip | src/main/java/de/landsh/opendata/update/ZufishServices.java:46-53 | the JSON record of a service reads back as that service |
| ZufishServices.CsvRowFields | src/main/java/de/landsh/opendata/update/ZufishServices.java:55 | the CSV row reads back as its six fields, the name unquoted, when no field but the name holds a comma and none holds a quote |
| CoronaSchleswigFlensburg.DateOfLine | src/main/java/de/landsh/opendata/update/CoronaSchleswigFlensburg.java:56 | a line written for a date reads back that date as the text before its first comma |
| CoronaSchleswigFlensburg.Cells | src/main/java/de/landsh/opendata/update/CoronaSchleswigFlensburg.java:96-99 | a row with fewer than three cells throws; otherwise its first three cells |
| CoronaSchleswigFlensburg.Start | src/main/java/de/landsh/opendata/update/CoronaSchleswigFlensburg.java:100-112 | the first row of a table gives the date before the first comma of its first cell; a date already seen stops the table; unexpected column titles throw |
| CoronaSchleswigFlensburg.TableShape | src/main/java/de/landsh/opendata/update/CoronaSchleswigFlensburg.java:91-118 | a table writes one line per data row, each carrying the table's date, which was not seen before |
| CoronaSchleswigFlensburg.DataLinesDates | src/main/java/de/landsh/opendata/update/CoronaSchleswigFlensburg.java:113-114 | every data line starts with the table's date |
| CoronaSchleswigFlensburg.RerunSkips | src/main/java/de/landsh/opendata/update/CoronaSchleswigFlensburg.java:51-61 | a table whose date the target file already holds is skipped on the next run, so no date is written twice |
| CoronaSchleswigFlensburg.DataFails | src/main/java/de/landsh/opendata/update/CoronaSchleswigFlensburg.java:96-99 | a data row with fewer than three cells makes the whole table throw |
| CoronaSchleswigFlensburg.Record | src/main/java/de/landsh/opendata/update/CoronaSchleswigFlensburg.java:80-85 | recording a new href keeps the seen URLs equal to the hrefs followed and as many of them, and follows one more offered href |
| CoronaSchleswigFlensburg.NoneTwice | src/main/java/de/landsh/opendata/update/CoronaSchleswigFlensburg.java:79-84 | the seen URLs being the hrefs followed and as many of them, no href is followed twice |
| CoronaSchleswigFlensburg.Crawler.ReadExistingDates | src/main/java/de/landsh/opendata/update/CoronaSchleswigFlensburg.java:51-61 | the seen dates gain exactly the dates of the file's lines after the header; nothing else changes |
| CoronaSchleswigFlensburg.Crawler.ProcessTable | src/main/java/de/landsh/opendata/update/CoronaSchleswigFlensburg.java:91-118 | the lines written are those TableLines gives, or the table throws; the seen sets do not change |
| CoronaSchleswigFlensburg.Crawler.ProcessDocument | src/main/java/de/landsh/opendata/update/CoronaSchleswigFlensburg.java:63-89 | processing a page only appends lines with unseen dates and only follows hrefs some page offers under the label with an unseen date, none twice |
| CoronaSchleswigFlensburg.Crawler.FollowLink | src/main/java/de/landsh/opendata/update/CoronaSchleswigFlensburg.java:76-88 | a link is followed exactly when its text starts with "Zu den Zahlen vom", its href is not yet seen and the date after the label is not seen; otherwise nothing changes |
| CoronaSchleswigFlensburg.Crawler.Visit | src/main/java/de/landsh/opendata/update/CoronaSchleswigFlensburg.java:82-83 | a link that is followed has its href recorded before its page is processed; that href is the first of the hrefs followed from then on, all of them offered |
| CoronaSchleswigFlensburg.Crawler.Work | src/main/java/de/landsh/opendata/update/CoronaSchleswigFlensburg.java:32-45 | an existing file keeps its lines and gains only lines with dates it did not hold; a new file starts with the header; every href followed was offered |
| CoronaSchleswigFlensburg.Crawler.GenerateDistributions | src/main/java/de/landsh/opendata/update/CoronaSchleswigFlensburg.java:120-127 | after work the target file is copied to corona.csv, which throws when that name is taken |
| Ladesaeulenregister.NoLinkingLine | src/main/java/de/landsh/opendata/update/Ladesaeulenregister.java:40-48 | without a line linking the Excel file the link is null |
| Ladesaeulenregister.LastLinkingLine | src/main/java/de/landsh/opendata/update/Ladesaeulenregister.java:42-48 | otherwise the href of the last line naming both "Ladesaeulenregister.xlsx" and "blob=publicationFile" decides |
| Ladesaeulenregister.DetermineExcelFileUrl | src/main/java/de/landsh/opendata/update/Ladesaeulenregister.java:34-58 | the loop answers the start URL's origin followed by the last link (the text "null" when there is none) |
| Ladesaeulenregister.OriginOf | src/main/java/de/landsh/opendata/update/Ladesaeulenregister.java:54-57 | for a start URL scheme://host/path the origin is exactly scheme://host |
| Ladesaeulenregister.HeaderIndex | src/main/java/de/landsh/opendata/update/Ladesaeulenregister.java:89-91 | the header found is the first line starting with "Betreiber,Straße" |
| Ladesaeulenregister.Stand | src/main/java/de/landsh/opendata/update/Ladesaeulenregister.java:92-96 | a date read from the "Stand:" lines is a valid calendar date |
| Ladesaeulenregister.FilterLines | src/main/java/de/landsh/opendata/update/Ladesaeulenregister.java:80-101 | the loop with its inData flag computes exactly Filter |
| Ladesaeulenregister.DataStep | src/main/java/de/landsh/opendata/update/Ladesaeulenregister.java:84-87 | in data mode a line is kept exactly when it contains ",Schleswig-Holstein," |
| Ladesaeulenregister.HeaderStep | src/main/java/de/landsh/opendata/update/Ladesaeulenregister.java:89-91 | the first header line is written and switches to data mode |
| Ladesaeulenregister.PreambleStep | src/main/java/de/landsh/opendata/update/Ladesaeulenregister.java:92-97 | before the header a "Stand:" line sets the date, or throws when its date does not parse as dd.MM.yyyy |
| Ladesaeulenregister.StandStopsAt | src/main/java/de/landsh/opendata/update/Ladesaeulenregister.java:92-97 | a "Stand:" line that does not parse, before any header line, fails the whole filter |
| Ladesaeulenregister.InStateLinesMembers | src/main/java/de/landsh/opendata/update/Ladesaeulenregister.java:84-87 | a line is kept after the header exactly when it is a line of Schleswig-Holstein |
| Ladesaeulenregister.InStateLinesAppend | src/main/java/de/landsh/opendata/update/Ladesaeulenregister.java:83-101 | the kept lines keep their input order |
| Ladesaeulenregister.TargetShape | src/main/java/de/landsh/opendata/update/Ladesaeulenregister.java:77-102 | the target file is empty without a header line; otherwise the first header line, then exactly the later lines of Schleswig-Holstein |
| Ladesaeulenregister.StandAfterHeaderIgnored | src/main/java/de/landsh/opendata/update/Ladesaeulenregister.java:84-97 | the date comes from "Stand:" lines before the header; those after it are ignored |
| Ladesaeulenregister.NoStandLine | src/main/java/de/landsh/opendata/update/Ladesaeulenregister.java:92-96 | without a "Stand:" line no date file is written |
| Ladesaeulenregister.LastStandLine | src/main/java/de/landsh/opendata/update/Ladesaeulenregister.java:92-96 | with "Stand:" lines that all parse, the last one's date is written, in ISO format |
| Ladesaeulenregister.GenerateDistributions | src/main/java/de/landsh/opendata/update/Ladesaeulenregister.java:60-110 | a failed download answers false; an empty workbook throws; otherwise the first sheet's CSV lines are filtered into the target file and the date files |
| DenkmallisteGenerator.PdfGenerator | src/main/java/de/landsh/opendata/update/DenkmallisteGenerator.java:60-68 | a non-blank pdf URL gives a plain download to "<county>.pdf" with the job's credentials; otherwise a generator that does nothing |
| DenkmallisteGenerator.Fetch | src/main/java/de/landsh/opendata/update/DenkmallisteGenerator.java:126-154 | a memoised URL is answered from the memo; otherwise a 200 answer is stored and returned, any other status throws and leaves the memo alone |
| DenkmallisteGenerator.FetchMemoised | src/main/java/de/landsh/opendata/update/DenkmallisteGenerator.java:126-154 | once a URL was fetched, every later request for it returns the same bytes and leaves the memo alone, whatever the server would say |
| DenkmallisteGenerator.DownloadCache.Download | src/main/java/de/landsh/opendata/update/DenkmallisteGenerator.java:126-154 | the answer and the memo afterwards are those of Fetch |
| DenkmallisteGenerator.CleanArray | src/main/java/de/landsh/opendata/update/DenkmallisteGenerator.java:71-83 | a value whose text is blank removes the key, a string value becomes an array holding that string, any other value stays, and no other key changes |
| DenkmallisteGenerator.CleanArrayIdempotent | src/main/java/de/landsh/opendata/update/DenkmallisteGenerator.java:71-83 | cleaning twice is cleaning once |
| DenkmallisteGenerator.TrimAddress | src/main/java/de/landsh/opendata/update/DenkmallisteGenerator.java:183-189 | a blank address is removed and any other is trimmed; an address that is not a string throws; no other key changes |
| DenkmallisteGenerator.RenameType | src/main/java/de/landsh/opendata/update/DenkmallisteGenerator.java:190-193 | the type under the key with a trailing blank moves, trimmed, to the proper key, and that key is gone afterwards |
| DenkmallisteGenerator.DefaultType | src/main/java/de/landsh/opendata/update/DenkmallisteGenerator.java:195-204 | a blank type becomes "Schutzzone" for the six listed object numbers and "Bewegliches Kulturdenkmal" for any other; a non-blank type stays; a type that is not a string throws |
| DenkmallisteGenerator.AddPhoto | src/main/java/de/landsh/opendata/update/DenkmallisteGenerator.java:209-214 | an entry whose photo exists in the photo directory gets FotoURL = base URL + number + ".jpg"; otherwise it is unchanged |
| DenkmallisteGenerator.Normalise | src/main/java/de/landsh/opendata/update/DenkmallisteGenerator.java:173-216 | a non-object entry throws; a normalised entry has no dropped keys, a trimmed address, a non-blank type, cleaned arrays, and its Kreis and Objektnummer as read |
| DenkmallisteGenerator.GroupByCounty | src/main/java/de/landsh/opendata/update/DenkmallisteGenerator.java:216-221 | perCounty has an array exactly for the counties that occur, holding that county's entries in input order |
| DenkmallisteGenerator.AllEntriesOnce | src/main/java/de/landsh/opendata/update/DenkmallisteGenerator.java:224-231 | collecting the arrays of every county, in whatever order the map yields them, gives each entry exactly once |
| DenkmallisteGenerator.OptString | src/main/java/de/landsh/opendata/update/DenkmallisteGenerator.java:93-95 | an optional member is written as empty when missing and throws when it is not a string |
| DenkmallisteGenerator.WriteCsv | src/main/java/de/landsh/opendata/update/DenkmallisteGenerator.java:85-124 | the loop writes exactly the CSV text: the header, then one row per entry |
| DenkmallisteGenerator.SplitJoin | src/main/java/de/landsh/opendata/update/DenkmallisteGenerator.java:90-121 | the quoted fields of a row, split at every `";"`, give the fields back when none holds a quote |
| DenkmallisteGenerator.RowRoundTrip | src/main/java/de/landsh/opendata/update/DenkmallisteGenerator.java:90-121 | a row reads back as its object number and fields, as long as no field holds a double quote |
| DenkmallisteGenerator.Latin1RoundTrip | src/main/java/de/landsh/opendata/update/DenkmallisteGenerator.java:238 | the Latin-1 file reads back as the CSV text exactly when no character lies above U+00FF; otherwise exactly those become '?' |
| DenkmallisteGenerator.WholeState | src/main/java/de/landsh/opendata/update/DenkmallisteGenerator.java:224-238 | for a blank county name the files "denkmalliste.*" hold every normalised entry of the list, each exactly once |
| DenkmallisteGenerator.OneCounty | src/main/java/de/landsh/opendata/update/DenkmallisteGenerator.java:239-249 | for a county name the files hold exactly that county's entries in input order; a county without entries throws |
| DenkmallisteGenerator.MonumentsKreis | src/main/java/de/landsh/opendata/update/DenkmallisteGenerator.java:216-221 | every normalised entry is filed under the county in its own Kreis |
| DenkmallisteGenerator.GroupEntries | src/main/java/de/landsh/opendata/update/DenkmallisteGenerator.java:173-222 | the loop throws the first entry's failure, or yields the grouping of the normalised entries |
| DenkmallisteGenerator.EntryFails | src/main/java/de/landsh/opendata/update/DenkmallisteGenerator.java:173-175 | an entry that cannot be normalised makes the whole list throw |
| DenkmallisteGenerator.EntryFiled | src/main/java/de/landsh/opendata/update/DenkmallisteGenerator.java:216-221 | a normalised entry is appended to its county's array, which is created when it is the county's first |
| DenkmallisteGenerator.ProcessXmlFile | src/main/java/de/landsh/opendata/update/DenkmallisteGenerator.java:167-251 | the files written are those Process describes |
| DenkmallisteGenerator.Collect | src/main/java/de/landsh/opendata/update/DenkmallisteGenerator.java:226-231 | the loops copy the arrays of the counties in map order, item by item |
| DenkmallisteGenerator.GenerateDistributions | src/main/java/de/landsh/opendata/update/DenkmallisteGenerator.java:156-165 | the list is fetched through the memo, its first three bytes skipped and the rest parsed and processed; a failed fetch or parse throws |
| DenkmallisteGenerator.SkipBom | src/main/java/de/landsh/opendata/update/DenkmallisteGenerator.java:168 | up to three leading bytes are dropped |
| WappenrolleGenerator.Split | src/main/java/de/landsh/opendata/update/WappenrolleGenerator.java:53 | String.split at one character: the text itself when the character does not occur, otherwise its pieces with the trailing empty ones removed |
| WappenrolleGenerator.ConvertDate | src/main/java/de/landsh/opendata/update/WappenrolleGenerator.java:48-56 | null for a null or blank text; fewer than three pieces throws; otherwise the third, second and first dot-separated piece of the trimmed text joined by hyphens |
| WappenrolleGenerator.GermanDateToIso | src/main/java/de/landsh/opendata/update/WappenrolleGenerator.java:48-56 | a German date "d.m.y" becomes "y-m-d" when no piece holds a dot, the year is not empty and there is nothing to trim |
| WappenrolleGenerator.ConvertDateBlank | src/test/java/de/landsh/opendata/update/WappenrolleGeneratorTest.java:73-76 | null, empty and blank dates convert to null |
| WappenrolleGenerator.ConvertDateExample | src/test/java/de/landsh/opendata/update/WappenrolleGeneratorTest.java:77 | "08.05.2020" converts to "2020-05-08" |
| WappenrolleGenerator.ConvertDateThrows | src/main/java/de/landsh/opendata/update/WappenrolleGenerator.java:53-55 | a date without two dots, or one whose year is missing, throws |
| WappenrolleGenerator.NoDotThrows | src/main/java/de/landsh/opendata/update/WappenrolleGenerator.java:53-55 | a date with nothing to trim and no dot throws |
| WappenrolleGenerator.MissingYearThrows | src/main/java/de/landsh/opendata/update/WappenrolleGenerator.java:53-55 | "d.m." throws: the split drops the empty year and leaves two pieces |
| WappenrolleGenerator.Escape | src/main/java/de/landsh/opendata/update/WappenrolleGenerator.java:167 | escaped XML text holds none of the characters < > " ' |
| WappenrolleGenerator.UnescapeEscape | src/main/java/de/landsh/opendata/update/WappenrolleGenerator.java:167 | escaped text reads back as the original, as long as it holds no character the escaping removes |
| WappenrolleGenerator.Geocoding | src/main/java/de/landsh/opendata/update/WappenrolleGenerator.java:137-147 | the table maps only positive numbers, each to a non-empty URI |
| WappenrolleGenerator.GeocodingHas | src/main/java/de/landsh/opendata/update/WappenrolleGenerator.java:139-145 | a number is in the table exactly when some line with a positive number and a non-empty URI names it |
| WappenrolleGenerator.GeocodingLastWins | src/main/java/de/landsh/opendata/update/WappenrolleGenerator.java:139-145 | the number maps to the URI of the last such line that names it |
| WappenrolleGenerator.OneEntryPerId | src/main/java/de/landsh/opendata/update/WappenrolleGenerator.java:71-104 | the event loop yields one record per ID start element, and none at all without one |
| WappenrolleGenerator.DoneGrows | src/main/java/de/landsh/opendata/update/WappenrolleGenerator.java:71-100 | records, once complete, stay complete and in order |
| WappenrolleGenerator.DocumentEntries | src/main/java/de/landsh/opendata/update/WappenrolleGenerator.java:71-104 | reading a document gives back its records, one entry per record holding its fields, whatever the names of the root and record elements |
| WappenrolleGenerator.EntryId | src/main/java/de/landsh/opendata/update/WappenrolleGenerator.java:220 | Integer.parseInt of the ID field, for ASCII digits: an error for a missing or malformed number, otherwise its value |
| WappenrolleGenerator.FilledValues | src/main/java/de/landsh/opendata/update/WappenrolleGenerator.java:265-287 | the values collected are exactly the non-empty texts under the keys |
| WappenrolleGenerator.BaseJson | src/main/java/de/landsh/opendata/update/WappenrolleGenerator.java:249-263 | every record's JSON has the number, the municipality exactly when the table knows the number, the name exactly when the record has one, and none of the author-only members |
| WappenrolleGenerator.AuthorMembers | src/main/java/de/landsh/opendata/update/WappenrolleGenerator.java:265-296 | for a known author: the authors and figures given, in order, and the converted cancellation date and reason; a bad cancellation date throws |
| WappenrolleGenerator.CommonJson | src/main/java/de/landsh/opendata/update/WappenrolleGenerator.java:249-299 | commonJson throws exactly for a bad ID or, with a known first author, a bad cancellation date; otherwise it carries the number and only the common members |
| WappenrolleGenerator.CancellationXml | src/main/java/de/landsh/opendata/update/WappenrolleGenerator.java:241-243 | the cancellation element throws exactly when a given cancellation date does not convert |
| WappenrolleGenerator.CommonXml | src/main/java/de/landsh/opendata/update/WappenrolleGenerator.java:219-247 | appendCommonXml throws exactly for a bad ID or a bad cancellation date |
| WappenrolleGenerator.ItemJson | src/main/java/de/landsh/opendata/update/WappenrolleGenerator.java:150-175 | the item's JSON has the URI under the kind's base, the description, and an image exactly when the image name is not blank |
| WappenrolleGenerator.ItemXml | src/main/java/de/landsh/opendata/update/WappenrolleGenerator.java:152-155 | the RDF fragment opens with the kind's element about the item's URI |
| WappenrolleGenerator.ItemOf | src/main/java/de/landsh/opendata/update/WappenrolleGenerator.java:150-216 | no item when the kind's description is empty; otherwise an item, unless the common JSON, the common XML or the approval date throws |
| WappenrolleGenerator.ItemContents | src/main/java/de/landsh/opendata/update/WappenrolleGenerator.java:150-216 | a published item carries the record's number, its URI under the kind's base, its description, and its image exactly when the image name is not blank |
| WappenrolleGenerator.Process | src/main/java/de/landsh/opendata/update/WappenrolleGenerator.java:149-217 | a record yields a flag exactly when its flag description is given and a coat of arms exactly when its arms description is given |
| WappenrolleGenerator.CancellationAlwaysConverted | src/main/java/de/landsh/opendata/update/WappenrolleGenerator.java:241-243 | appendCommonXml converts the cancellation date whoever the author is while commonJson does so only for a known author, so a bad date with an unknown author still fails the record |
| WappenrolleGenerator.OnePerDescription | src/main/java/de/landsh/opendata/update/WappenrolleGenerator.java:149-217 | each kind's JSON array and RDF list hold one item per record with that kind's description, and no other |
| WappenrolleGenerator.WriteRdf | src/main/java/de/landsh/opendata/update/WappenrolleGenerator.java:123-132 | the loop prints exactly the RDF text |
| WappenrolleGenerator.RdfShape | src/main/java/de/landsh/opendata/update/WappenrolleGenerator.java:123-132 | the RDF file is the declaration and the root start, each on a line, then every fragment followed by a line feed, then the root end |
| WappenrolleGenerator.ReadPrintedAll | src/main/java/de/landsh/opendata/update/WappenrolleGenerator.java:127-129 | printed lines without carriage returns read back as their pieces |
| WappenrolleGenerator.Generator.ReadId2Geocoding | src/main/java/de/landsh/opendata/update/WappenrolleGenerator.java:137-147 | the map gains exactly the table Geocoding gives; the other lists do not change |
| WappenrolleGenerator.Generator.ProcessEntry | src/main/java/de/landsh/opendata/update/WappenrolleGenerator.java:149-217 | throws exactly when Process does; otherwise the flag and coat-of-arms lists grow by the record's items, in order |
| WappenrolleGenerator.Generator.Flush | src/main/java/de/landsh/opendata/update/WappenrolleGenerator.java:79-81 | processing the record that just closed extends the lists, or fails the run with the record's error |
| WappenrolleGenerator.Generator.Write | src/main/java/de/landsh/opendata/update/WappenrolleGenerator.java:106-112 | "wappen" writes the coat-of-arms files, any other type the flag files |
| WappenrolleGenerator.Generator.GenerateDistributions | src/main/java/de/landsh/opendata/update/WappenrolleGenerator.java:58-115 | the files written, or the error thrown, are those of Generate over the geocoding lines and the export's events |
| WappenrolleGenerator.Processed | src/main/java/de/landsh/opendata/update/WappenrolleGenerator.java:149-217 | one more record processed without an exception extends every list by its items |
| WappenrolleGenerator.FailedAt | src/main/java/de/landsh/opendata/update/WappenrolleGenerator.java:76-84 | a record that fails when the next one starts fails the whole run with its error |
| WappenrolleGenerator.FailedLast | src/main/java/de/landsh/opendata/update/WappenrolleGenerator.java:102-104 | the last record failing after the loop fails the whole run with its error |
| CoronaSchuldashboard.CellText | src/main/java/de/landsh/opendata/update/CoronaSchuldashboard.java:111 | a cell gives its text exactly when it is an object with a "value" member |
| CoronaSchuldashboard.ReadRow | src/main/java/de/landsh/opendata/update/CoronaSchuldashboard.java:108-114 | the loop reads every cell's value, in order, or throws at the first unreadable cell |
| CoronaSchuldashboard.ColumnName | src/main/java/de/landsh/opendata/update/CoronaSchuldashboard.java:73-74 | a column gives its name exactly when it is an object with a string "name" |
| CoronaSchuldashboard.ReadColumnNames | src/main/java/de/landsh/opendata/update/CoronaSchuldashboard.java:70-75 | the loop reads the names of every column but the first, in order |
| CoronaSchuldashboard.Summary | src/main/java/de/landsh/opendata/update/CoronaSchuldashboard.java:81 | a row is a summary exactly when its "type" is "summary"; a row without "type" is not one; a non-string type throws |
| CoronaSchuldashboard.RowEntries | src/main/java/de/landsh/opendata/update/CoronaSchuldashboard.java:88-101 | each entry is (date, the row's first cell, a column name other than the ignored one, its value), one per column when the ignored name is not a column |
| CoronaSchuldashboard.ConvertRow | src/main/java/de/landsh/opendata/update/CoronaSchuldashboard.java:79-102 | a summary row gives nothing; a data row whose cell count is not the number of columns plus one throws |
| CoronaSchuldashboard.ConvertRows | src/main/java/de/landsh/opendata/update/CoronaSchuldashboard.java:77-103 | every entry carries the date and a column name other than the ignored one; without an ignored column there is one entry per data row and column |
| CoronaSchuldashboard.Table | src/main/java/de/landsh/opendata/update/CoronaSchuldashboard.java:64-106 | no download gives no table; every entry of a table has four fields, the date first, and never the ignored column |
| CoronaSchuldashboard.AnyRowFails | src/main/java/de/landsh/opendata/update/CoronaSchuldashboard.java:84-86 | one malformed row makes the whole table throw |
| CoronaSchuldashboard.AddRowEntries | src/main/java/de/landsh/opendata/update/CoronaSchuldashboard.java:88-101 | the inner loop appends exactly the row's entries |
| CoronaSchuldashboard.ConvertTable | src/main/java/de/landsh/opendata/update/CoronaSchuldashboard.java:64-106 | the method computes exactly Table |
| CoronaSchuldashboard.ConvertAllRows | src/main/java/de/landsh/opendata/update/CoronaSchuldashboard.java:77-103 | the row loop computes exactly ConvertRows |
| CoronaSchuldashboard.NumberAtPosition | src/main/java/de/landsh/opendata/update/CoronaSchuldashboard.java:156-158 | a number is read exactly when the position exists and holds an object with a string "number"; the result is an int |
| CoronaSchuldashboard.Thousands | src/main/java/de/landsh/opendata/update/CoronaSchuldashboard.java:156-158 | "a.bbb" with digits only reads as a * 1000 + bbb: the thousands separator is removed |
| CoronaSchuldashboard.SecondDotGivesZero | src/main/java/de/landsh/opendata/update/CoronaSchuldashboard.java:156-158 | a number with a second dot reads as 0, since NumberUtils.toInt falls back to 0 |
| CoronaSchuldashboard.Checked | src/main/java/de/landsh/opendata/update/CoronaSchuldashboard.java:137-141 | without a verification text every header passes; with one, the header must start with it, or the conversion throws |
| CoronaSchuldashboard.ConvertTestungen | src/main/java/de/landsh/opendata/update/CoronaSchuldashboard.java:136-146 | a missing download throws; a header that fails the check throws; otherwise the three numbers at positions 0, 1 and 2 |
| CoronaSchuldashboard.MaxOf | src/main/java/de/landsh/opendata/update/CoronaSchuldashboard.java:218-230 | the maximum of the dates is one of them and at least every other in lexicographic order; none only for no dates |
| CoronaSchuldashboard.LastDate | src/main/java/de/landsh/opendata/update/CoronaSchuldashboard.java:217-242 | without data lines 2020-08-10 for daily and 2021-W16 otherwise; else the greatest first field of the lines after the header |
| CoronaSchuldashboard.ReadLastDateFromTargetFile | src/main/java/de/landsh/opendata/update/CoronaSchuldashboard.java:217-242 | the loop computes exactly LastDate |
| CoronaSchuldashboard.PreviousWeek | src/main/java/de/landsh/opendata/update/CoronaSchuldashboard.java:293-299 | the week before is earlier: week - 1 in the same year, or week 51 of the year before when week 1 is passed |
| CoronaSchuldashboard.WeekAt | src/main/java/de/landsh/opendata/update/CoronaSchuldashboard.java:272-300 | every week the loop visits has a week number of at least 1, and every one after the first is earlier than the start |
| CoronaSchuldashboard.EarlierYearsEndAt51 | src/main/java/de/landsh/opendata/update/CoronaSchuldashboard.java:295-297 | in years before the start the loop never visits week 52 or 53 |
| CoronaSchuldashboard.WeeksReached | src/main/java/de/landsh/opendata/update/CoronaSchuldashboard.java:272-300 | every week numbered 1 to 51 at or before the start is reached after some number of steps |
| CoronaSchuldashboard.PreviousDateAsWritten | src/main/java/de/landsh/opendata/update/CoronaSchuldashboard.java:374-382 | getPreviousDate as written: always earlier; from a Sunday one day back to Saturday; from a Saturday two days back |
| CoronaSchuldashboard.FridayNeverRequested | src/main/java/de/landsh/opendata/update/CoronaSchuldashboard.java:319-359 | a run on a Sunday starts on Saturday and steps to Thursday, so the Friday before is never requested |
| CoronaSchuldashboard.WalkAsWritten | src/main/java/de/landsh/opendata/update/CoronaSchuldashboard.java:331-359 | the k-th day the daily loop as written stands at lies at least k days before the start |
| CoronaSchuldashboard.PreviousDate | src/main/java/de/landsh/opendata/update/CoronaSchuldashboard.java:374-382 | the corrected step lands on a school day, earlier than the given date |
| CoronaSchuldashboard.NoSchoolDaySkipped | src/main/java/de/landsh/opendata/update/CoronaSchuldashboard.java:374-382 | the corrected step skips no school day |
| CoronaSchuldashboard.Walk | src/main/java/de/landsh/opendata/update/CoronaSchuldashboard.java:331-359 | every date after the first that the corrected loop visits is a school day, at least one day earlier per step |
| CoronaSchuldashboard.VisitsEverySchoolDay | src/main/java/de/landsh/opendata/update/CoronaSchuldashboard.java:331-359 | the corrected walk reaches every earlier school day |
| CoronaSchuldashboard.TestVerification | src/main/java/de/landsh/opendata/update/CoronaSchuldashboard.java:275-287 | only the three test codes download weekly data |
| CoronaSchuldashboard.DailyIgnore | src/main/java/de/landsh/opendata/update/CoronaSchuldashboard.java:334-349 | only the four daily codes download a table |
| CoronaSchuldashboard.Texts | src/main/java/de/landsh/opendata/update/CoronaSchuldashboard.java:290 | each number is written as its decimal text |
| CoronaSchuldashboard.Lines | src/main/java/de/landsh/opendata/update/CoronaSchuldashboard.java:352-354 | each table row is written as its fields joined by commas |
| CoronaSchuldashboard.Joined | src/main/java/de/landsh/opendata/update/CoronaSchuldashboard.java:272-300 | the rows of the visited weeks or days are produced exactly when every one of them converts |
| CoronaSchuldashboard.JoinedFailWith | src/main/java/de/landsh/opendata/update/CoronaSchuldashboard.java:272-300 | the first week or day that throws ends the run with its error |
| CoronaSchuldashboard.FirstIndex | src/main/java/de/landsh/opendata/update/CoronaSchuldashboard.java:272 | the loop stops at the first week or day equal to the last date in the file |
| CoronaSchuldashboard.WeekRowShape | src/main/java/de/landsh/opendata/update/CoronaSchuldashboard.java:274-291 | a code without weekly data writes nothing; a missing download throws; otherwise one line of the week and its three numbers |
| CoronaSchuldashboard.WeeklyLines | src/main/java/de/landsh/opendata/update/CoronaSchuldashboard.java:272-300 | the n weekly lines start, in order, with the texts of the weeks visited |
| CoronaSchuldashboard.DayRowsShape | src/main/java/de/landsh/opendata/update/CoronaSchuldashboard.java:333-355 | a code without daily data or a missing download writes nothing; otherwise the lines of the day's table |
| CoronaSchuldashboard.Header | src/main/java/de/landsh/opendata/update/CoronaSchuldashboard.java:266-270 | no target file gives no header; an existing one gives its first line, "null" when it is empty |
| CoronaSchuldashboard.Output | src/main/java/de/landsh/opendata/update/CoronaSchuldashboard.java:263-311 | the output is the header, then the new rows, then the existing data lines unchanged |
| CoronaSchuldashboard.CopyLines | src/main/java/de/landsh/opendata/update/CoronaSchuldashboard.java:302-309 | the copy loop appends every remaining line of the target file |
| CoronaSchuldashboard.FetchWeek | src/main/java/de/landsh/opendata/update/CoronaSchuldashboard.java:274-291 | one week's download and conversion give exactly WeekRow |
| CoronaSchuldashboard.WriteWeeks | src/main/java/de/landsh/opendata/update/CoronaSchuldashboard.java:272-300 | the week loop writes exactly the joined rows of the weeks before the last date |
| CoronaSchuldashboard.GenerateWeekly | src/main/java/de/landsh/opendata/update/CoronaSchuldashboard.java:256-313 | the weekly run computes exactly Weekly |
| CoronaSchuldashboard.PrintRows | src/main/java/de/landsh/opendata/update/CoronaSchuldashboard.java:351-355 | the rows of a day's table are printed, each as its comma-joined line |
| CoronaSchuldashboard.FetchDay | src/main/java/de/landsh/opendata/update/CoronaSchuldashboard.java:333-355 | one day's download and conversion give exactly DayRows |
| CoronaSchuldashboard.WriteDays | src/main/java/de/landsh/opendata/update/CoronaSchuldashboard.java:331-359 | the day loop, stepping with getPreviousDate as written, writes exactly the joined rows of the days it visits before the last date |
| CoronaSchuldashboard.GenerateDaily | src/main/java/de/landsh/opendata/update/CoronaSchuldashboard.java:315-372 | the daily run, starting yesterday and stepping with getPreviousDate as written, computes exactly Daily |
| CoronaSchuldashboard.KeepsStoredLines | src/main/java/de/landsh/opendata/update/CoronaSchuldashboard.java:244-372 | a frequency other than daily or weekly writes nothing; otherwise the file keeps the stored header first and the stored data lines last |
| CoronaSchuldashboard.GenerateDistributions | src/main/java/de/landsh/opendata/update/CoronaSchuldashboard.java:244-254 | the run for the job's frequency computes exactly Distributions |

## Left out

- HTTP transport (`RestClient`, `HttpRestClient`): request headers, multipart bodies and the API key are not modelled (`ApiKey.java` is not part of this model). The catalog's answers are an oracle of `Catalog.Client`, and the JSON requests are built as values.
- The MD5 digest is not computed. A file's checksum is given with the file. Two files are equal when their contents are equal, which is what comparing the two digests is meant to decide.
- `JustDownloadGenerator`, `NoopGenerator`, `CoronaRdEck` and the ANTLR-based `Convert` are not part of this model. Downloads are parameters of the generators that use them.
- Command-line parsing, the YAML configuration file and `UpdateSettings` (`OpenDataUpdatesCkan.main`) are left out. The jobs are given as values.
- Reflection in `findGeneratorDynamically` is modelled as a function from class names to the constructor each class offers, or to the exception its constructor throws on the job's settings (for example `CoronaSchuldashboard` without a `targetFile` argument). The constructors' own code is not run by the model, so this function is an input for the job at hand.
- The current time, random UUIDs, temporary directory names and the calendar week of the current date are parameters. The week number depends on the JVM's locale.
- The order in which `File.listFiles` lists files is a given order.
- Where the source iterates a `HashSet`, a `HashMap` or an org.json `JSONObject`, whose order Java does not fix, the model uses ascending key order. The members whose contracts fix such an order are listed below.
- Publishing.ExchangeSucceeds: states the deletes in ascending id order. The source deletes the old resource ids in the iteration order of a `HashSet` (`OpenDataUpdatesCkan.java:191`, `207-211`). That every old id is deleted exactly once, after all uploads, is proved for any duplicate-free order of the ids (DeleteCallsOf, UploadsThenDeletes). When a delete throws, which ids were already deleted depends on the order.
- Publishing.ReplaceResourcesSucceeds: the same ascending delete order as ExchangeSucceeds.
- Publishing.AppendPrivateSucceeds: the same ascending delete order as ExchangeSucceeds.
- Updates.Updater.AppendPrivate: logs the deletes in ascending id order, as ExchangeSucceeds states them.
- Updates.Updater.ExchangeResources: logs the deletes in ascending id order, as ExchangeSucceeds states them.
- Updates.Updater.UploadThenDelete: passes the old ids to DeleteResources in ascending order, where the source iterates a `HashSet`.
- DenkmallisteGenerator.ProcessXmlFile: the whole-state files list the counties in ascending name order. The source iterates the values of a `HashMap` (`DenkmallisteGenerator.java:227`). That every entry appears exactly once holds for any order of the counties (AllEntriesOnce).
- DenkmallisteGenerator.GenerateDistributions: the county order of ProcessXmlFile, and the members of each JSON object in ascending key order. org.json keeps them in a `HashMap`.
- Json.Serialize: writes the members of an object in ascending key order, where org.json writes them in `HashMap` order.
- Json.Json: a JSON number is an integer (`JNum(n: int)`). org.json also holds Double and BigDecimal values, which the model cannot represent. So a cell value such as 3.5, which CoronaSchuldashboard.CellText would write as "3.5", a resource size of 1234.0, which CkanApi.ParseResource would read as 0 through NumberUtils.toLong, and a number such as 123.0, which DenkmallisteGenerator's getInt reads as 123, are outside the model.
- Text.ParseIntIn: accepts only the ASCII digits '0' to '9'. `Integer.parseInt` and `NumberUtils.toInt` use `Character.digit`, which accepts every Unicode decimal digit, so "١٢" reads as 12 in Java and as no number in the model. The members reading numbers through it are WappenrolleGenerator.EntryId and the ID read of WappenrolleGenerator.CommonJson (`Integer.parseInt`, an error instead of the number), WappenrolleGenerator.Geocoding, Excel2Csv.SheetNumber and CoronaSchuldashboard.NumberAtPosition (`NumberUtils.toInt`, 0 instead of the number), Json.GetInt for a text value, and CkanApi.ParseResource's size (`NumberUtils.toLong`).
- Java's case rules and string order are modelled for ASCII letters and code points only. The members below depend on this. No other member does, except `Json.GetBoolean`'s test for "true" and "false", which is ASCII-only too, and the key order of `Json.Serialize`, which stands in for hash order anyway.
- Files.FormatOfExtension: upper-cases only the ASCII letters a to z. `StringUtils.upperCase` applies Java's full, locale-dependent `toUpperCase`. For example, "ß" becomes "SS", and in a Turkish locale "i" becomes "İ".
- WappenrolleGenerator.CommonJson: the "unbekannt" test ignores the case of ASCII letters only. Java's `equalsIgnoreCase` also matches other letters by their case, such as the Kelvin sign U+212A with "k".
- CsvSortLines.DataSortedPermutation: orders lines by code point. `String.compareTo` orders UTF-16 code units. The two orders differ only where two lines first differ at a character beyond U+FFFF against one in U+E000 to U+FFFF: Java sorts the first before the second, the model after it.
- Files.DirectoriesAreEqual: sorts both listings by name in code-point order, where `Comparator.comparing(File::getName)` uses `String.compareTo`, which orders UTF-16 code units. Pairing the sorted entries can then differ. For example, take one directory with files named U+10000 and U+E000 and another with files named U+E001 and U+F000. The files U+10000 and U+E001 hold one content, and U+E000 and U+F000 hold a different one. Java pairs U+10000 with U+E001 and U+E000 with U+F000 and answers true. The model pairs U+E000 with U+E001 and U+10000 with U+F000 and answers false.
- Files.DirectoriesEqual: the same code-point order as DirectoriesAreEqual, so it differs from Java only for names like those above.
- CoronaSchuldashboard.MaxOf: compares dates by code point where `StringUtils.compare` compares UTF-16 code units, with the same difference as DataSortedPermutation. The dates it compares are ISO dates and week texts made of ASCII characters.
- HTML parsing (Jsoup), XML streaming, Excel reading (Apache POI) and JSON tokenising are not modelled. Their outputs are inputs: pages as link lists, XML as event sequences, workbooks as rows of cells, JSON as values.
- Logging is left out, except where a dry run logs instead of calling the catalog.
- `Ladesaeulenregister` writes the data's date into two files named by `OpenDataUpdatesCkan.METADATA_FILE_TIME_START` and `METADATA_FILE_TIME_END`. Those constants are not defined in `OpenDataUpdatesCkan.java`, so the model returns the date text itself and writes no file for it.
- The state left behind by an exception in mid-generation is not modelled. In `WappenrolleGenerator` the flag record is appended before the arms are computed, and the JSON is built before the common XML fields. Every exception aborts the run before any file is written, so the files are the same either way.
- CoronaSchuldashboard.GenerateDistributions: its requires name a number of steps of the loop as written (WalkAsWritten for days, WeekAt for weeks) after which the last stored date is reached. That excludes the runs whose loop never ends (see Findings) instead of modelling them.
- CoronaSchuldashboard.GenerateDaily: the same reachability requires, for the daily loop.
- CoronaSchuldashboard.GenerateWeekly: the same reachability requires, for the weekly loop.
- CoronaSchuldashboard.KeepsStoredLines: the same reachability requires.
- `CoronaSchuldashboard.collectExisting*` and the `AVAILABLE_*` constants are not part of this model: nothing in the generator calls or reads them.
- The `Authorization` header sent with the school dashboard download is left out. The download is the `fetch` parameter.
- The weekly loop steps from week 1 back to week 51 of the previous year, so it never asks for weeks 52 and 53. This is stated as a lemma, not as a finding, because which years have such weeks depends on the locale's week rules.

## Findings

| source | as written | input that shows it | evidently intended | confidence | as-written member | corrected member |
|---|---|---|---|---|---|---|
| src/main/java/de/landsh/opendata/update/CoronaSchuldashboard.java:374-382 | `getPreviousDate` steps back two days from a Saturday, to Thursday, and one day from a Sunday | a daily run on a Monday starts at Sunday, whose previous date is Saturday, then Thursday. If the target file's last date is the Friday in between, the loop never finds it and does not end | two days back from a Sunday and one from a Saturday, so that every school day is visited in turn | not executed | CoronaSchuldashboard.FridayNeverRequested | CoronaSchuldashboard.VisitsEverySchoolDay |
