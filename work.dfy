/**
 * One run of an update job (OpenDataUpdatesCkan.work), as a function of the
 * job, the catalog, the local cache of last published files and the
 * environment: the schedule gate, the choice of generator, the generation
 * into a scratch directory, the comparison with the cached copy, the
 * dispatch to a publishing strategy, and the refresh of the cache.
 */
module Orchestration {
  import opened Wrappers
  import opened Text
  import opened Catalog
  import opened Files
  import opened Jobs
  import opened Publishing
  import Dates

  // ---------------------------------------------------------------- generators

  /** The generators work() can instantiate, with the constructor arguments that matter. */
  datatype Generator =
    | JustDownload(fileName: string)
    | Wappenrolle
    | Denkmalliste
    | CsvSort(fileName: string)
    | Dynamic(className: string, withArguments: bool)

  /**
   * What reflection finds for a class name, given the job's settings: no
   * class, which constructor it offers, or a constructor that throws on
   * these settings (newInstance then throws InvocationTargetException).
   */
  datatype ClassInfo = NotFound | IdAndJobConstructor | NoArgConstructor | NoUsableConstructor | ConstructorThrows(message: string)

  const JustDownloadClass := "de.landsh.opendata.update.JustDownloadGenerator"
  const WappenrolleClass := "de.landsh.opendata.update.WappenrolleGenerator"
  const DenkmallisteClass := "de.landsh.opendata.update.DenkmallisteGenerator"
  const CsvSortLinesClass := "de.landsh.opendata.update.CsvSortLines"

  /** Class.forName(null) throws. */
  const NullGenerator := "NullPointerException: no generator class given"

  /** The Wappenrolle, Denkmalliste and CsvSortLines constructors read the generator arguments, which may be null. */
  const NullArguments := "NullPointerException: no generator arguments"

  /** A generator name work() knows without reflection. */
  predicate BuiltIn(name: string)
  {
    name in {JustDownloadClass, "just-download", WappenrolleClass, "de.landsh.opendata.processor.Wappenrolle",
             DenkmallisteClass, "de.landsh.opendata.processor.Denkmalliste", CsvSortLinesClass}
  }

  /** A built-in generator whose constructor reads the generator arguments (all but JustDownloadGenerator). */
  predicate ReadsArguments(name: string)
  {
    BuiltIn(name) && name != JustDownloadClass && name != "just-download"
  }

  /**
   * findGeneratorDynamically: the class's (String, DatasetUpdate) constructor
   * if it has one, else its no-argument constructor, else none.
   */
  function FindGeneratorDynamically(name: Option<string>, classes: string -> ClassInfo): (r: Result<Option<Generator>>)
    ensures name.None? ==> r == Err(NullGenerator)
    ensures name.Some? && classes(name.value).ConstructorThrows? ==> r == Err(classes(name.value).message)
    ensures r.Err? <==> name.None? || classes(name.value).ConstructorThrows?
    ensures (r.Ok? && r.value.None?) <==> name.Some? && (classes(name.value).NotFound? || classes(name.value).NoUsableConstructor?)
    ensures r.Ok? && r.value.Some? ==>
      (r.value.value == Dynamic(name.value, true) <==> classes(name.value).IdAndJobConstructor?)
    ensures r.Ok? && r.value.Some? ==> r.value.value.Dynamic? && r.value.value.className == name.value
  {
    if name.None? then Err(NullGenerator)
    else match classes(name.value)
      case NotFound => Ok(None)
      case IdAndJobConstructor => Ok(Some(Dynamic(name.value, true)))
      case NoArgConstructor => Ok(Some(Dynamic(name.value, false)))
      case NoUsableConstructor => Ok(None)
      case ConstructorThrows(m) => Err(m)
  }

  /**
   * The generator a job names: a built-in one by its class name or alias,
   * otherwise one found by reflection. A constructor that throws makes this
   * fail.
   */
  function SelectGenerator(job: Job, classes: string -> ClassInfo): Result<Option<Generator>>
  {
    var id := NullText(JobId(job));
    var g := job.generator;
    if g == Some(JustDownloadClass) || g == Some("just-download") then Ok(Some(JustDownload(id + "." + NullText(job.format))))
    else if g == Some(WappenrolleClass) || g == Some("de.landsh.opendata.processor.Wappenrolle") then
      if job.generatorArgs.None? then Err(NullArguments) else Ok(Some(Wappenrolle))
    else if g == Some(DenkmallisteClass) || g == Some("de.landsh.opendata.processor.Denkmalliste") then
      if job.generatorArgs.None? then Err(NullArguments) else Ok(Some(Denkmalliste))
    else if g == Some(CsvSortLinesClass) then
      if job.generatorArgs.None? then Err(NullArguments) else Ok(Some(CsvSort(id + ".csv")))
    else FindGeneratorDynamically(g, classes)
  }

  /**
   * Built-in names and aliases never reach reflection; every other name does.
   * A built-in generator fails exactly when its constructor reads missing
   * generator arguments.
   */
  lemma SelectGeneratorFacts(job: Job, classes: string -> ClassInfo)
    ensures job.generator.Some? && BuiltIn(job.generator.value) ==>
      (SelectGenerator(job, classes).Err? <==> ReadsArguments(job.generator.value) && job.generatorArgs.None?)
    ensures job.generator.Some? && BuiltIn(job.generator.value) && SelectGenerator(job, classes).Err? ==>
      SelectGenerator(job, classes) == Err(NullArguments)
    ensures job.generator.Some? && BuiltIn(job.generator.value) && SelectGenerator(job, classes).Ok? ==>
      (SelectGenerator(job, classes).value.Some? && !SelectGenerator(job, classes).value.value.Dynamic?)
    ensures (job.generator.None? || !BuiltIn(job.generator.value)) ==> SelectGenerator(job, classes) == FindGeneratorDynamically(job.generator, classes)
    ensures job.generator == Some("just-download") ==>
      SelectGenerator(job, classes) == Ok(Some(JustDownload(NullText(JobId(job)) + "." + NullText(job.format))))
  {
  }

  // ---------------------------------------------------------------- the schedule

  /** The job is active, and today matches its day of month and day of week where it names one. */
  predicate Scheduled(job: Job, today: Day)
  {
    && job.active
    && (job.dayOfMonth.None? || job.dayOfMonth.value == today.day)
    && (job.dayOfWeek.None? || job.dayOfWeek.value == Dates.DayOfWeek(today))
  }

  // ---------------------------------------------------------------- one run

  /** new File(localDataDir, id) throws for a job with neither collection nor dataset id. */
  const NullId := "NullPointerException: the job has no id"

  /** The strategy for the job's type and visibility; every other type publishes nothing and fails. */
  function Dispatch(c: Client, dryRun: bool, job: Job, files: Listing, env: Env): Run
  {
    match job.kind
    case Some(APPEND) =>
      if job.isPrivate then AppendPrivateRun(c, dryRun, job.datasetId, env.timeNow, files)
      else AppendPublicRun(c, dryRun, job.datasetId, env.timeNow)
    case Some(OVERWRITE) => OverwriteRun(c, dryRun, !job.isPrivate, job.collectionId, files, env)
    case _ => Run([], Ok(false))
  }

  /** What is left of the scratch directory after the run. */
  datatype Scratch = NotCreated | Removed | Left

  /** The catalog calls of a run, how it ends, the cache it leaves, and the scratch directory. */
  datatype Outcome = Outcome(calls: seq<Call>, result: Result<bool>, cache: map<string, Listing>, scratch: Scratch)

  /** The comparison with the cached copy: a first run only answers false, an unchanged directory calls nothing, any other dispatches. */
  function Compared(c: Client, dryRun: bool, cache: map<string, Listing>, job: Job, env: Env, files: Listing, id: string): Run
  {
    if id !in cache then Run([], Ok(false))
    else if DirectoriesEqual(Some(files), Some(cache[id])) then Done
    else Dispatch(c, dryRun, job, files, env)
  }

  /** What follows the comparison: unless it threw, the cached copy is refreshed (not in a dry run) and the scratch directory removed. */
  function Refreshed(run: Run, dryRun: bool, cache: map<string, Listing>, files: Listing, id: string): Outcome
  {
    var start := if id in cache then cache[id] else [];
    if run.outcome.Err? then Outcome(run.calls, run.outcome, cache[id := start], Left)
    else if dryRun then Outcome(run.calls, run.outcome, cache[id := start], Removed)
    else
      var copied := CopyAll(start, files);
      if copied.failure.Some? then Outcome(run.calls, Err(copied.failure.value), cache[id := copied.dir], Left)
      else Outcome(run.calls, run.outcome, cache[id := copied.dir], Removed)
  }

  /** Publishing against the cached copy and refreshing it, once the scratch directory holds files. */
  function PublishGenerated(c: Client, dryRun: bool, cache: map<string, Listing>, job: Job, env: Env, files: Listing, id: string): Outcome
  {
    Refreshed(Compared(c, dryRun, cache, job, env, files, id), dryRun, cache, files, id)
  }

  /** work(update). */
  function Work(c: Client, dryRun: bool, cache: map<string, Listing>, job: Job, env: Env,
                classes: string -> ClassInfo, generate: Generator -> Result<Listing>): Outcome
  {
    if !Scheduled(job, env.today) then Outcome([], Ok(false), cache, NotCreated)
    else match SelectGenerator(job, classes)
      case Err(m) => Outcome([], Err(m), cache, NotCreated)
      case Ok(None) => Outcome([], Ok(false), cache, NotCreated)
      case Ok(Some(g)) =>
        match generate(g)
        case Err(_) => Outcome([], Ok(false), cache, Left)
        case Ok(files) =>
          if JobId(job).None? then Outcome([], Err(NullId), cache, Left)
          else PublishGenerated(c, dryRun, cache, job, env, files, JobId(job).value)
  }

  // ---------------------------------------------------------------- properties

  /** An inactive job, or one for another day, does nothing and fails, whatever its generator would do. */
  lemma WorkNotScheduled(c: Client, dryRun: bool, cache: map<string, Listing>, job: Job, env: Env,
                         classes: string -> ClassInfo, generate: Generator -> Result<Listing>)
    requires !job.active || (job.dayOfMonth.Some? && job.dayOfMonth.value != env.today.day)
      || (job.dayOfWeek.Some? && job.dayOfWeek.value != Dates.DayOfWeek(env.today))
    ensures Work(c, dryRun, cache, job, env, classes, generate) == Outcome([], Ok(false), cache, NotCreated)
  {
  }

  /** A generator name reflection cannot instantiate fails the job before anything is generated. */
  lemma WorkUnknownGenerator(c: Client, dryRun: bool, cache: map<string, Listing>, job: Job, env: Env,
                             classes: string -> ClassInfo, generate: Generator -> Result<Listing>)
    requires Scheduled(job, env.today)
    requires job.generator.Some? && !BuiltIn(job.generator.value)
    requires classes(job.generator.value) == NotFound || classes(job.generator.value) == NoUsableConstructor
    ensures Work(c, dryRun, cache, job, env, classes, generate) == Outcome([], Ok(false), cache, NotCreated)
  {
    SelectGeneratorFacts(job, classes);
  }

  /**
   * A generator constructor that throws (a built-in one reading missing
   * generator arguments, or one found by reflection) fails the job with its
   * exception before the scratch directory exists: no catalog call, the
   * cache untouched.
   */
  lemma WorkConstructorThrows(c: Client, dryRun: bool, cache: map<string, Listing>, job: Job, env: Env,
                              classes: string -> ClassInfo, generate: Generator -> Result<Listing>)
    requires Scheduled(job, env.today) && job.generator.Some?
    requires (ReadsArguments(job.generator.value) && job.generatorArgs.None?)
      || (!BuiltIn(job.generator.value) && classes(job.generator.value).ConstructorThrows?)
    ensures BuiltIn(job.generator.value) ==>
      Work(c, dryRun, cache, job, env, classes, generate) == Outcome([], Err(NullArguments), cache, NotCreated)
    ensures !BuiltIn(job.generator.value) ==>
      Work(c, dryRun, cache, job, env, classes, generate) == Outcome([], Err(classes(job.generator.value).message), cache, NotCreated)
  {
    SelectGeneratorFacts(job, classes);
  }

  /** A generator that throws fails the job: no catalog call, the cache untouched, the scratch directory left. */
  lemma WorkGeneratorFails(c: Client, dryRun: bool, cache: map<string, Listing>, job: Job, env: Env,
                           classes: string -> ClassInfo, generate: Generator -> Result<Listing>, g: Generator)
    requires Scheduled(job, env.today) && SelectGenerator(job, classes) == Ok(Some(g)) && generate(g).Err?
    ensures Work(c, dryRun, cache, job, env, classes, generate) == Outcome([], Ok(false), cache, Left)
  {
  }

  /** The run once the generator produced files, for a job with an id. */
  lemma WorkGenerated(c: Client, dryRun: bool, cache: map<string, Listing>, job: Job, env: Env,
                      classes: string -> ClassInfo, generate: Generator -> Result<Listing>, g: Generator)
    requires Scheduled(job, env.today) && SelectGenerator(job, classes) == Ok(Some(g)) && generate(g).Ok?
    ensures JobId(job).None? ==> Work(c, dryRun, cache, job, env, classes, generate) == Outcome([], Err(NullId), cache, Left)
    ensures JobId(job).Some? ==>
      Work(c, dryRun, cache, job, env, classes, generate) == PublishGenerated(c, dryRun, cache, job, env, generate(g).value, JobId(job).value)
  {
  }

  /**
   * Files equal to the cached copy: no catalog call and success; the copy is
   * refreshed file by file unless this is a dry run, and the scratch
   * directory is removed.
   */
  lemma UnchangedPublishesNothing(c: Client, dryRun: bool, cache: map<string, Listing>, job: Job, env: Env, files: Listing, id: string)
    requires id in cache && DirectoriesEqual(Some(files), Some(cache[id]))
    ensures var o := PublishGenerated(c, dryRun, cache, job, env, files, id);
      && o.calls == [] && o.result == Ok(true) && o.scratch == Removed
      && o.cache == if dryRun then cache else cache[id := CopyAll(cache[id], files).dir]
  {
    EqualDirectoryIsRegular(files, cache[id]);
    RegularFilesCopy(cache[id], files);
  }

  /** Copying only regular files never fails. */
  lemma {:induction false} RegularFilesCopy(dir: Listing, files: Listing)
    requires forall i :: 0 <= i < |files| ==> files[i].isFile
    ensures CopyAll(dir, files).failure.None?
    decreases |files|
  {
    if files != [] {
      RegularFilesCopy(dir, files[..|files| - 1]);
    }
  }

  /** A directory equal to another holds only regular files. */
  lemma EqualDirectoryIsRegular(files: Listing, other: Listing)
    requires DirectoriesEqual(Some(files), Some(other))
    ensures forall i :: 0 <= i < |files| ==> files[i].isFile
  {
    forall i | 0 <= i < |files| ensures files[i].isFile {
      if !files[i].isFile {
        NonFileNeverEqual(files, Some(other), i);
      }
    }
  }

  /**
   * No cached copy yet: the cache directory is created empty, nothing is
   * published, the job fails, and outside a dry run the files are copied in.
   */
  lemma MissingCacheFails(c: Client, dryRun: bool, cache: map<string, Listing>, job: Job, env: Env, files: Listing, id: string)
    requires id !in cache
    ensures var o := PublishGenerated(c, dryRun, cache, job, env, files, id);
      && o.calls == [] && id in o.cache
      && (dryRun ==> o.result == Ok(false) && o.cache == cache[id := []])
      && (!dryRun ==> o.cache == cache[id := CopyAll([], files).dir])
      && ((forall i :: 0 <= i < |files| ==> files[i].isFile) ==> o.result == Ok(false))
  {
    if forall i :: 0 <= i < |files| ==> files[i].isFile {
      RegularFilesCopy([], files);
    }
  }

  /** Changed files of a job whose type has no strategy: nothing published, the job fails. */
  lemma NoStrategyFails(c: Client, dryRun: bool, cache: map<string, Listing>, job: Job, env: Env, files: Listing, id: string)
    requires id in cache && !DirectoriesEqual(Some(files), Some(cache[id]))
    requires job.kind.None? || job.kind == Some(METADATA)
    requires forall i :: 0 <= i < |files| ==> files[i].isFile
    ensures var o := PublishGenerated(c, dryRun, cache, job, env, files, id);
      o.calls == [] && o.result == Ok(false)
  {
    RegularFilesCopy(cache[id], files);
  }

  /**
   * Changed files go to the strategy: the run makes exactly its calls; an
   * exception from it ends the job with the cache untouched and the scratch
   * directory left; otherwise its answer is the job's unless the copy fails.
   */
  lemma ChangedDispatches(c: Client, dryRun: bool, cache: map<string, Listing>, job: Job, env: Env, files: Listing, id: string)
    requires id in cache && !DirectoriesEqual(Some(files), Some(cache[id]))
    ensures var o := PublishGenerated(c, dryRun, cache, job, env, files, id); var run := Dispatch(c, dryRun, job, files, env);
      && o.calls == run.calls
      && (run.outcome.Err? ==> o.result == run.outcome && o.cache == cache && o.scratch == Left)
      && (run.outcome.Ok? && (forall i :: 0 <= i < |files| ==> files[i].isFile) ==> o.result == run.outcome)
  {
    if forall i :: 0 <= i < |files| ==> files[i].isFile {
      RegularFilesCopy(cache[id], files);
    }
  }

  /**
   * The cache is refreshed whenever this is not a dry run and no exception
   * escaped, even when the strategy answered false: with regular files of
   * distinct names, each name then finds its newly generated file. A dry run
   * changes at most the creation of an empty directory.
   */
  lemma CacheRefreshedUnlessDryRun(c: Client, dryRun: bool, cache: map<string, Listing>, job: Job, env: Env, files: Listing, id: string, name: string)
    requires forall i :: 0 <= i < |files| ==> files[i].isFile
    requires forall i, j :: 0 <= i < j < |files| ==> files[i].name != files[j].name
    ensures var o := PublishGenerated(c, dryRun, cache, job, env, files, id);
      && id in o.cache
      && (dryRun ==> o.cache == cache[id := if id in cache then cache[id] else []])
      && (!dryRun && o.result.Ok? ==>
            Lookup(o.cache[id], name) ==
              if exists i :: 0 <= i < |files| && files[i].name == name
              then Some(files[Position(files, name)])
              else Lookup(if id in cache then cache[id] else [], name))
  {
    CopyAllLookup(if id in cache then cache[id] else [], files, name);
  }
}
