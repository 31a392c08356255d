/**
 * The catalog client as the update jobs use it: every call the jobs make on
 * CkanAPI is recorded in a log, and the answers come from the catalog's state
 * (the records it holds, the newest member of each collection) and from two
 * fixed oracles (which calls fail, and what the server accepts). The HTTP
 * exchange behind each call is modelled separately in CkanApi.
 */
module Catalog {
  import opened Wrappers
  import opened Json

  /** One call on the catalog client, with the arguments that reach the server. */
  datatype Call =
    | Read(id: string)
    | FindNewest(collectionId: string)
    | Upload(packageId: string, name: string, format: string, mimeType: string)
    | Delete(resourceId: string)
    | Update(record: Object)
    | Create(record: Object)
    | Retitle(packageId: string, title: string)
    | Attach(datasetId: string, collectionId: string)

  predicate IsUpload(c: Call) { c.Upload? }
  predicate IsDelete(c: Call) { c.Delete? }
  predicate IsUpdate(c: Call) { c.Update? }

  /** The number of calls of one kind in a log. */
  function Count(log: seq<Call>, kind: Call -> bool): (n: nat)
    ensures n <= |log|
    ensures n == 0 <==> forall i :: 0 <= i < |log| ==> !kind(log[i])
  {
    if log == [] then 0
    else Count(log[..|log| - 1], kind) + (if kind(log[|log| - 1]) then 1 else 0)
  }

  lemma {:induction false} CountAppend(a: seq<Call>, b: seq<Call>, kind: Call -> bool)
    ensures Count(a + b, kind) == Count(a, kind) + Count(b, kind)
    decreases |b|
  {
    if b == [] {
      assert a + b == a;
    } else {
      assert (a + b)[..|a + b| - 1] == a + b[..|b| - 1];
      CountAppend(a, b[..|b| - 1], kind);
    }
  }

  /** What getString("id") throws for an id that is not a string. */
  const NotAStringId := "JSONObject[\"id\"] is not a string."

  class Client {
    /** The records the catalog holds, by id. */
    const records: map<string, Object>
    /** The id each collection's "aktuell" page redirects to. */
    const newest: map<string, string>
    /** The id the server assigns to a created package. */
    const createdId: string
    /** The server's success flag for uploads (and other boolean answers). */
    const accepted: Call -> bool
    /** The message of the exception a call throws (transport or server error), if any. */
    const failure: Call -> Option<string>
    /** The calls made so far, oldest first. */
    var log: seq<Call>

    constructor (records: map<string, Object>, newest: map<string, string>, createdId: string,
                 accepted: Call -> bool, failure: Call -> Option<string>)
      ensures this.records == records && this.newest == newest && this.createdId == createdId
      ensures this.accepted == accepted && this.failure == failure
      ensures log == []
    {
      this.records := records;
      this.newest := newest;
      this.createdId := createdId;
      this.accepted := accepted;
      this.failure := failure;
      log := [];
    }

    /**
     * Whether a call throws: updatePackage always refuses a record without id
     * and one whose id is not a string; otherwise the oracle decides.
     */
    function Throws(c: Call): (r: Option<string>)
      ensures c.Update? && "id" !in c.record ==> r == Some("Dataset without id")
      ensures c.Update? && "id" in c.record && !c.record["id"].JStr? ==> r == Some(NotAStringId)
      ensures !c.Update? || ("id" in c.record && c.record["id"].JStr?) ==> r == failure(c)
    {
      if c.Update? && "id" !in c.record then Some("Dataset without id")
      else if c.Update? && !c.record["id"].JStr? then Some(NotAStringId)
      else failure(c)
    }

    /** The answer v to call c, unless c throws. */
    function Answer<T>(c: Call, v: T): (r: Result<T>)
      ensures r.Ok? <==> Throws(c).None?
      ensures r.Ok? ==> r.value == v
    {
      match Throws(c)
      case Some(m) => Err(m)
      case None => Ok(v)
    }

    function ReadAnswer(id: string): Result<Option<Object>>
    {
      Answer(Read(id), if id in records then Some(records[id]) else None)
    }

    function NewestAnswer(collectionId: string): Result<Option<string>>
    {
      Answer(FindNewest(collectionId), if collectionId in newest then Some(newest[collectionId]) else None)
    }

    /** readDataset: the record, or None when the catalog does not know the id. */
    method ReadDataset(id: string) returns (r: Result<Option<Object>>)
      modifies this
      ensures log == old(log) + [Read(id)]
      ensures r == ReadAnswer(id)
    {
      log := log + [Read(id)];
      r := ReadAnswer(id);
    }

    /** findNewestDataset: the id the collection's redirect names, or None without a redirect. */
    method FindNewestDataset(collectionId: string) returns (r: Result<Option<string>>)
      modifies this
      ensures log == old(log) + [FindNewest(collectionId)]
      ensures r == NewestAnswer(collectionId)
    {
      log := log + [FindNewest(collectionId)];
      r := NewestAnswer(collectionId);
    }

    /** A call whose answer is the server's success flag. */
    method Send(c: Call) returns (r: Result<bool>)
      modifies this
      ensures log == old(log) + [c]
      ensures r == Answer(c, accepted(c))
    {
      log := log + [c];
      r := Answer(c, accepted(c));
    }

    /** createPackage: the id the server assigned. */
    method CreatePackage(record: Object) returns (r: Result<string>)
      modifies this
      ensures log == old(log) + [Create(record)]
      ensures r == Answer(Create(record), createdId)
    {
      log := log + [Create(record)];
      r := Answer(Create(record), createdId);
    }
  }
}
