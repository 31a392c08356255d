/**
 * One update job of the configuration (DatasetUpdate): which catalog entry it
 * maintains, how changes are published, which generator produces the files,
 * and when it may run. Unset Java fields are None.
 */
module Jobs {
  import opened Wrappers

  /** How a change is published: rows appended to one dataset, or a new dataset per version. */
  datatype Kind = APPEND | OVERWRITE | METADATA

  datatype Job = Job(
    collectionId: Option<string>,
    kind: Option<Kind>,
    datasetId: Option<string>,
    active: bool,
    isPrivate: bool,
    generator: Option<string>,
    generatorArgs: Option<map<string, string>>,
    dayOfMonth: Option<int>,
    dayOfWeek: Option<int>,
    format: Option<string>)

  /** A freshly constructed DatasetUpdate: active, public, format "csv", everything else unset. */
  function NewJob(): (j: Job)
    ensures j.active && !j.isPrivate && j.format == Some("csv")
    ensures j.collectionId.None? && j.kind.None? && j.datasetId.None? && j.generator.None?
    ensures j.generatorArgs.None? && j.dayOfMonth.None? && j.dayOfWeek.None?
  {
    Job(None, None, None, true, false, None, None, None, None, Some("csv"))
  }

  /** The id a job's files are kept and named under: the collection id if set, else the dataset id. */
  function JobId(j: Job): (r: Option<string>)
    ensures j.collectionId.Some? ==> r == j.collectionId
    ensures j.collectionId.None? ==> r == j.datasetId
  {
    if j.collectionId.Some? then j.collectionId else j.datasetId
  }
}
