/**
 * The decisions the CKAN client makes around its HTTP calls. The transport is
 * an oracle `respond` that maps each request to the JSON object the catalog
 * answers; an operation yields the requests it issued, in order, and its
 * outcome (a value, or the message of the exception it throws).
 */
module CkanApi {
  import opened Wrappers
  import opened Text
  import opened Json

  datatype Verb = GET | POST
  datatype Request = Request(verb: Verb, url: string, body: Option<Json>)

  datatype Exchange<T> = Exchange(requests: seq<Request>, outcome: Result<T>)

  type Responder = Request -> Object

  /** A distribution of a dataset as getResources reads it. */
  datatype Resource = Resource(
    accessURL: string,
    name: string,
    checksum: Option<string>,
    format: string,
    mimeType: Option<string>,
    id: string,
    byteSize: int)

  function ShowRequest(baseURL: string, id: string): Request
  {
    Request(GET, baseURL + "/api/3/action/package_show?id=" + id, None)
  }

  // ---------------------------------------------------------------- single responses

  /** isResponseSuccess: a non-null response with a `success` member that reads as true. */
  function IsResponseSuccess(response: Option<Object>): (r: Result<bool>)
    ensures r == Ok(true) <==> response.Some? && "success" in response.value && GetBoolean(response.value, "success") == Ok(true)
    ensures response.None? || "success" !in response.value ==> r == Ok(false)
  {
    if response.None? || "success" !in response.value then Ok(false)
    else GetBoolean(response.value, "success")
  }

  /** readDataset's check: the `result` member of a package_show answer, or null. */
  function ReadDataset(response: Object): (r: Result<Option<Object>>)
    ensures "result" !in response ==> r == Ok(None)
    ensures r.Ok? && r.value.Some? ==> response["result"] == JObj(r.value.value)
    ensures "result" in response && response["result"].JObj? ==> r.Ok? && r.value.Some?
  {
    if "result" in response then
      var o :- GetObject(response, "result");
      Ok(Some(o))
    else Ok(None)
  }

  /** findNewestDataset: the id is what follows the last '/' of the Location header. */
  function FindNewestDataset(baseURL: string, collectionId: string, location: Option<string>): (r: (Request, Option<string>))
    ensures r.0 == Request(GET, baseURL + "/collection/" + collectionId + "/aktuell", None)
    ensures location.None? <==> r.1.None?
    ensures location.Some? ==> !Contains(r.1.value, "/") && EndsWith(location.value, r.1.value)
    ensures location.Some? && !Contains(location.value, "/") ==> r.1.value == ""
    ensures location.Some? && Contains(location.value, "/") ==>
      |r.1.value| < |location.value| && location.value[|location.value| - |r.1.value| - 1] == '/'
  {
    var request := Request(GET, baseURL + "/collection/" + collectionId + "/aktuell", None);
    if location.None? then (request, None)
    else
      var id := SubstringAfterLast(location.value, "/");
      assert Contains(location.value, "/") ==> location.value[|location.value| - |id| - 1] == '/' by {
        if Contains(location.value, "/") {
          var k := |location.value| - |id| - 1;
          assert location.value[k..k + 1] == "/";
        }
      }
      (request, Some(id))
  }

  predicate EndsWith(s: string, t: string)
  {
    |t| <= |s| && s[|s| - |t|..] == t
  }

  /** getCollection: `__extras.object_package_id` of the first relationship, or null. */
  function GetCollection(response: Object): (r: Result<Option<string>>)
    ensures "result" !in response ==> r == Ok(None)
    ensures "result" in response && !(response["result"].JObj? && GetArray(response["result"].fields, "relationships_as_subject").Ok?) ==> r.Err?
    ensures "result" in response && response["result"].JObj? && GetArray(response["result"].fields, "relationships_as_subject") == Ok([]) ==>
      r == Ok(None)
    ensures "result" in response && response["result"].JObj? ==>
      var relationships := GetArray(response["result"].fields, "relationships_as_subject");
      relationships.Ok? && relationships.value != [] ==>
        var first := relationships.value[0];
        (!(first.JObj? && GetObject(first.fields, "__extras").Ok?) ==> r.Err?) &&
        (first.JObj? && GetObject(first.fields, "__extras").Ok? ==>
          var extras := GetObject(first.fields, "__extras").value;
          ("object_package_id" !in extras || extras["object_package_id"] == JNull ==> r == Ok(None)) &&
          ("object_package_id" in extras && extras["object_package_id"].JStr? ==> r == Ok(Some(extras["object_package_id"].s))) &&
          ("object_package_id" in extras && !extras["object_package_id"].JStr? && extras["object_package_id"] != JNull ==> r.Err?))
  {
    if "result" !in response then Ok(None)
    else
      var result :- GetObject(response, "result");
      var relationships :- GetArray(result, "relationships_as_subject");
      if relationships == [] then Ok(None)
      else if !relationships[0].JObj? then Err("class cast: relationship is not a JSONObject")
      else
        var extras :- GetObject(relationships[0].fields, "__extras");
        if "object_package_id" !in extras || extras["object_package_id"] == JNull then Ok(None)
        else
          var id :- GetString(extras, "object_package_id");
          Ok(Some(id))
  }

  // ---------------------------------------------------------------- datasets and collections

  /** The outcome of readDataset on a catalog that answers with `respond`. */
  function Show(baseURL: string, id: string, respond: Responder): Result<Option<Object>>
  {
    ReadDataset(respond(ShowRequest(baseURL, id)))
  }

  function RelationshipBody(collectionId: string, datasetId: string): Json
  {
    JObj(map["subject" := JStr(collectionId), "type" := JStr("parent_of"), "object" := JStr(datasetId)])
  }

  /**
   * putDatasetInCollection (action "package_relationship_create") and
   * removeDatasetFromCollection ("package_relationship_delete").
   */
  function ChangeMembership(baseURL: string, action: string, datasetId: string, collectionId: string, respond: Responder): (r: Exchange<bool>)
    ensures Show(baseURL, datasetId, respond) == Ok(None) ==>
      r == Exchange([ShowRequest(baseURL, datasetId)], Err("There is not dataset with id " + datasetId))
    ensures Show(baseURL, datasetId, respond).Ok? && Show(baseURL, datasetId, respond).value.Some? && Show(baseURL, collectionId, respond) == Ok(None) ==>
      r == Exchange([ShowRequest(baseURL, datasetId), ShowRequest(baseURL, collectionId)], Err("There is not collection with id " + collectionId))
    ensures |r.requests| == 3 <==> AttachAllowed(baseURL, datasetId, collectionId, respond)
    ensures (Show(baseURL, datasetId, respond).Ok? && Show(baseURL, datasetId, respond).value.Some? &&
      Show(baseURL, collectionId, respond).Ok? && Show(baseURL, collectionId, respond).value.Some? &&
      GetString(Show(baseURL, collectionId, respond).value.value, "type").Ok? &&
      GetString(Show(baseURL, collectionId, respond).value.value, "type") != Ok("collection")) ==>
      r == Exchange([ShowRequest(baseURL, datasetId), ShowRequest(baseURL, collectionId)], Err(collectionId + " is no collection."))
    ensures AttachAllowed(baseURL, datasetId, collectionId, respond) ==>
      r.requests[2] == Request(POST, baseURL + "/api/3/action/" + action, Some(RelationshipBody(collectionId, datasetId)))
      && r.outcome == IsResponseSuccess(Some(respond(r.requests[2])))
  {
    var first := ShowRequest(baseURL, datasetId);
    match ReadDataset(respond(first))
    case Err(e) => Exchange([first], Err(e))
    case Ok(None) => Exchange([first], Err("There is not dataset with id " + datasetId))
    case Ok(Some(_)) =>
      var second := ShowRequest(baseURL, collectionId);
      match ReadDataset(respond(second))
      case Err(e) => Exchange([first, second], Err(e))
      case Ok(None) => Exchange([first, second], Err("There is not collection with id " + collectionId))
      case Ok(Some(collection)) =>
        match GetString(collection, "type")
        case Err(e) => Exchange([first, second], Err(e))
        case Ok(t) =>
          if t != "collection" then Exchange([first, second], Err(collectionId + " is no collection."))
          else
            var post := Request(POST, baseURL + "/api/3/action/" + action, Some(RelationshipBody(collectionId, datasetId)));
            Exchange([first, second, post], IsResponseSuccess(Some(respond(post))))
  }

  /** The dataset exists, the collection exists, and its type is "collection". */
  predicate AttachAllowed(baseURL: string, datasetId: string, collectionId: string, respond: Responder)
  {
    var d := Show(baseURL, datasetId, respond);
    var c := Show(baseURL, collectionId, respond);
    d.Ok? && d.value.Some? && c.Ok? && c.value.Some? && GetString(c.value.value, "type") == Ok("collection")
  }

  function PutDatasetInCollection(baseURL: string, datasetId: string, collectionId: string, respond: Responder): Exchange<bool>
  {
    ChangeMembership(baseURL, "package_relationship_create", datasetId, collectionId, respond)
  }

  function RemoveDatasetFromCollection(baseURL: string, datasetId: string, collectionId: string, respond: Responder): Exchange<bool>
  {
    ChangeMembership(baseURL, "package_relationship_delete", datasetId, collectionId, respond)
  }

  /** updatePackage: a record without an `id` is refused before anything is sent. */
  function UpdatePackage(baseURL: string, record: Object, respond: Responder): (r: Exchange<bool>)
    ensures "id" !in record ==> r == Exchange([], Err("Dataset without id"))
    ensures "id" in record && !record["id"].JStr? ==> r.requests == [] && r.outcome.Err?
    ensures r.requests != [] <==> "id" in record && record["id"].JStr?
    ensures r.requests != [] ==>
      r.requests == [Request(POST, baseURL + "/api/3/action/package_update?id=" + record["id"].s, Some(JObj(record)))]
      && r.outcome == IsResponseSuccess(Some(respond(r.requests[0])))
  {
    if "id" !in record then Exchange([], Err("Dataset without id"))
    else match GetString(record, "id")
      case Err(e) => Exchange([], Err(e))
      case Ok(id) =>
        var post := Request(POST, baseURL + "/api/3/action/package_update?id=" + id, Some(JObj(record)));
        Exchange([post], IsResponseSuccess(Some(respond(post))))
  }

  /** The id in a package_create answer, or the exception createPackage throws. */
  function CreatedId(response: Object): (r: Result<string>)
    ensures GetBoolean(response, "success") == Ok(false) ==> r.Err?
    ensures r.Ok? <==> GetBoolean(response, "success") == Ok(true) && ResultId(response).Ok?
    ensures r.Ok? ==> r == ResultId(response)
  {
    var success :- GetBoolean(response, "success");
    if !success then
      var error :- Get(response, "error");
      Err(ToText(error))
    else
      var result :- GetObject(response, "result");
      GetString(result, "id")
  }

  /** `result.id` of an answer. */
  function ResultId(response: Object): (r: Result<string>)
    ensures r.Ok? ==> ("result" in response && response["result"].JObj?
      && "id" in response["result"].fields && response["result"].fields["id"] == JStr(r.value))
  {
    var result :- GetObject(response, "result");
    GetString(result, "id")
  }

  function CreateRequest(baseURL: string, body: Object): Request
  {
    Request(POST, baseURL + "/api/3/action/package_create", Some(JObj(body)))
  }

  /** createPackage: one package_create request; the new id, or an exception when `success` is false. */
  function CreatePackage(baseURL: string, record: Object, respond: Responder): (r: Exchange<string>)
    ensures r.requests == [CreateRequest(baseURL, record)]
    ensures GetBoolean(respond(CreateRequest(baseURL, record)), "success") == Ok(false) ==> r.outcome.Err?
    ensures r.outcome.Ok? ==> r.outcome == ResultId(respond(CreateRequest(baseURL, record)))
  {
    var post := CreateRequest(baseURL, record);
    Exchange([post], CreatedId(respond(post)))
  }

  /** createCollection: an existing collection's id is returned and nothing is created. */
  function CreateCollection(baseURL: string, collectionId: Option<string>, title: Option<string>, organizationId: Option<string>, respond: Responder): (r: Exchange<string>)
    ensures BlankOpt(collectionId) ==> r == Exchange([], Err("Collection id must not be blank."))
    ensures !BlankOpt(collectionId) ==> r.requests != [] && r.requests[0] == ShowRequest(baseURL, collectionId.value)
    ensures !BlankOpt(collectionId) && Show(baseURL, collectionId.value, respond).Ok? && Show(baseURL, collectionId.value, respond).value.Some? ==>
      r == Exchange([ShowRequest(baseURL, collectionId.value)], GetString(Show(baseURL, collectionId.value, respond).value.value, "id"))
    ensures |r.requests| == 2 <==> !BlankOpt(collectionId) && Show(baseURL, collectionId.value, respond) == Ok(None)
    ensures |r.requests| == 2 ==> r.requests[1] == CreateRequest(baseURL, CollectionBody(collectionId.value, title, organizationId))
    ensures |r.requests| == 2 ==> r.outcome == ResultId(respond(r.requests[1]))
    ensures !BlankOpt(collectionId) && Show(baseURL, collectionId.value, respond).Err? ==>
      r == Exchange([ShowRequest(baseURL, collectionId.value)], Err(Show(baseURL, collectionId.value, respond).error))
  {
    if BlankOpt(collectionId) then Exchange([], Err("Collection id must not be blank."))
    else
      var show := ShowRequest(baseURL, collectionId.value);
      match ReadDataset(respond(show))
      case Err(e) => Exchange([show], Err(e))
      case Ok(Some(existing)) => Exchange([show], GetString(existing, "id"))
      case Ok(None) =>
        var post := CreateRequest(baseURL, CollectionBody(collectionId.value, title, organizationId));
        Exchange([show, post], ResultId(respond(post)))
  }

  function CollectionBody(collectionId: string, title: Option<string>, organizationId: Option<string>): Object
  {
    PutOpt(PutOpt(map["name" := JStr(collectionId), "type" := JStr("collection")], "title", title), "owner_org", organizationId)
  }

  /** A catalog that answers package_show from `store` and creates packages with the id `newId`. */
  function StoreResponder(baseURL: string, store: map<string, Object>, newId: string): Responder
  {
    (r: Request) =>
      if r.verb == GET && exists k :: k in store && r == ShowRequest(baseURL, k) then
        var k := ShownId(baseURL, r);
        if k in store then map["success" := JBool(true), "result" := JObj(store[k])]
        else map["success" := JBool(false)]
      else if r.verb == POST && r.url == baseURL + "/api/3/action/package_create" && r.body.Some? && r.body.value.JObj? then
        map["success" := JBool(true), "result" := JObj(r.body.value.fields["id" := JStr(newId)])]
      else map["success" := JBool(false)]
  }

  function ShownId(baseURL: string, r: Request): string
  {
    var prefix := baseURL + "/api/3/action/package_show?id=";
    if |prefix| <= |r.url| then r.url[|prefix|..] else ""
  }

  lemma ShownIdOfShowRequest(baseURL: string, k: string)
    ensures ShownId(baseURL, ShowRequest(baseURL, k)) == k
  {
    var prefix := baseURL + "/api/3/action/package_show?id=";
    assert ShowRequest(baseURL, k).url == prefix + k;
  }

  /** How a store-backed catalog changes when it accepts a package_create. */
  function AfterCreate(store: map<string, Object>, name: string, body: Object, newId: string): map<string, Object>
  {
    store[name := body["id" := JStr(newId)]]
  }

  lemma StoreShow(baseURL: string, store: map<string, Object>, newId: string, k: string)
    ensures Show(baseURL, k, StoreResponder(baseURL, store, newId)) == (if k in store then Ok(Some(store[k])) else Ok(None))
  {
    ShownIdOfShowRequest(baseURL, k);
  }

  /**
   * createCollection is idempotent: on a catalog that accepted the first call's
   * package_create, a second call returns the same id and creates nothing.
   */
  lemma CreateCollectionIdempotent(baseURL: string, collectionId: string, title: Option<string>, organizationId: Option<string>,
                                  store: map<string, Object>, newId: string)
    requires !Blank(collectionId)
    requires var first := CreateCollection(baseURL, Some(collectionId), title, organizationId, StoreResponder(baseURL, store, newId));
      first.outcome.Ok?
    ensures var first := CreateCollection(baseURL, Some(collectionId), title, organizationId, StoreResponder(baseURL, store, newId));
      var after := if |first.requests| == 2 then AfterCreate(store, collectionId, CollectionBody(collectionId, title, organizationId), newId) else store;
      var second := CreateCollection(baseURL, Some(collectionId), title, organizationId, StoreResponder(baseURL, after, newId));
      second.outcome == first.outcome && |second.requests| == 1
  {
    var respond := StoreResponder(baseURL, store, newId);
    StoreShow(baseURL, store, newId, collectionId);
    var body := CollectionBody(collectionId, title, organizationId);
    var after := AfterCreate(store, collectionId, body, newId);
    StoreShow(baseURL, after, newId, collectionId);
    if collectionId !in store {
      var post := CreateRequest(baseURL, body);
      assert respond(post) == map["success" := JBool(true), "result" := JObj(body["id" := JStr(newId)])];
    }
  }

  /** changeTitle: read the package, then write it back with only its title changed. */
  function ChangeTitle(baseURL: string, packageId: string, title: string, respond: Responder): (r: Exchange<bool>)
    ensures r.requests != [] && r.requests[0] == ShowRequest(baseURL, packageId)
    ensures Show(baseURL, packageId, respond) == Ok(None) ==> r == Exchange([ShowRequest(baseURL, packageId)], Ok(false))
    ensures Show(baseURL, packageId, respond).Ok? && Show(baseURL, packageId, respond).value.Some? ==>
      var p := Show(baseURL, packageId, respond).value.value;
      r.requests[1..] == UpdatePackage(baseURL, p["title" := JStr(title)], respond).requests
      && r.outcome == UpdatePackage(baseURL, p["title" := JStr(title)], respond).outcome
  {
    var show := ShowRequest(baseURL, packageId);
    match ReadDataset(respond(show))
    case Err(e) => Exchange([show], Err(e))
    case Ok(None) => Exchange([show], Ok(false))
    case Ok(Some(p)) =>
      var update := UpdatePackage(baseURL, p["title" := JStr(title)], respond);
      Exchange([show] + update.requests, update.outcome)
  }

  /** The record changeTitle writes back differs from the fetched one in the title alone. */
  lemma ChangeTitleWritesBackRecord(baseURL: string, packageId: string, title: string, respond: Responder)
    requires Show(baseURL, packageId, respond).Ok? && Show(baseURL, packageId, respond).value.Some?
    requires var p := Show(baseURL, packageId, respond).value.value; "id" in p && p["id"].JStr?
    ensures var p := Show(baseURL, packageId, respond).value.value;
      var r := ChangeTitle(baseURL, packageId, title, respond);
      |r.requests| == 2 && r.requests[1].verb == POST && r.requests[1].body.Some? && r.requests[1].body.value.JObj?
      && var written := r.requests[1].body.value.fields;
      written.Keys == p.Keys + {"title"} && written["title"] == JStr(title)
      && forall k :: k in p && k != "title" ==> written[k] == p[k]
  {
  }

  // ---------------------------------------------------------------- resources

  /** The `resources` array of a dataset, or of the `result` object that wraps it. */
  function ResourceArray(dataset: Object): (r: Result<seq<Json>>)
    ensures "resources" in dataset ==> r == GetArray(dataset, "resources")
    ensures "resources" !in dataset && "result" in dataset && dataset["result"].JObj? ==>
      r == GetArray(dataset["result"].fields, "resources")
    ensures "resources" !in dataset && !("result" in dataset && dataset["result"].JObj?) ==> r.Err?
  {
    if "resources" in dataset then GetArray(dataset, "resources")
    else
      var result :- GetObject(dataset, "result");
      GetArray(result, "resources")
  }

  /** One resource record as getResources reads it. */
  function ParseResource(o: Json): (r: Result<Resource>)
    ensures r.Ok? ==> o.JObj?
    ensures r.Ok? ==> GetString(o.fields, if "access_url" in o.fields then "access_url" else "url") == Ok(r.value.accessURL)
    ensures r.Ok? ==> GetString(o.fields, "id") == Ok(r.value.id) && GetString(o.fields, "name") == Ok(r.value.name)
    ensures r.Ok? ==> "hash" in o.fields && o.fields["hash"].JStr? && r.value.checksum == TrimToNull(Some(o.fields["hash"].s))
    ensures r.Ok? ==> (r.value.mimeType.Some? <==> "mimetype" in o.fields && o.fields["mimetype"] != JNull)
    ensures r.Ok? && r.value.mimeType.Some? ==> o.fields["mimetype"] == JStr(r.value.mimeType.value)
    ensures r.Ok? ==> GetString(o.fields, "format") == Ok(r.value.format)
    ensures r.Ok? ==> "size" in o.fields && r.value.byteSize == ToLong(ToText(o.fields["size"]))
    ensures r.Ok? <==> (o.JObj? && GetString(o.fields, if "access_url" in o.fields then "access_url" else "url").Ok?
      && GetString(o.fields, "name").Ok? && GetString(o.fields, "hash").Ok? && GetString(o.fields, "format").Ok?
      && ("mimetype" !in o.fields || o.fields["mimetype"] == JNull || o.fields["mimetype"].JStr?)
      && GetString(o.fields, "id").Ok? && "size" in o.fields)
  {
    if !o.JObj? then Err("class cast: resource is not a JSONObject")
    else
      var m := o.fields;
      var accessURL :- GetString(m, if "access_url" in m then "access_url" else "url");
      var name :- GetString(m, "name");
      var hash :- GetString(m, "hash");
      var format :- GetString(m, "format");
      var mimeType :- if "mimetype" in m && m["mimetype"] != JNull then
          var t :- GetString(m, "mimetype"); Ok(Some(t))
        else Ok(None);
      var id :- GetString(m, "id");
      var size :- Get(m, "size");
      Ok(Resource(accessURL, name, TrimToNull(Some(hash)), format, mimeType, id, ToLong(ToText(size))))
  }

  /** The resources a dataset lists, or the exception getResources throws. */
  function Resources(dataset: Object): Result<seq<Resource>>
  {
    var entries :- ResourceArray(dataset);
    MapAll(entries, ParseResource)
  }

  /** getResources: one Resource per entry, in order; any malformed entry throws. */
  method GetResources(dataset: Object) returns (r: Result<seq<Resource>>)
    ensures r == Resources(dataset)
  {
    var found := ResourceArray(dataset);
    if found.Err? {
      return Err(found.error);
    }
    var entries := found.value;
    var result: seq<Resource> := [];
    var i := 0;
    while i < |entries|
      invariant 0 <= i <= |entries|
      invariant MapAll(entries[..i], ParseResource) == Ok(result)
    {
      var resource := ParseResource(entries[i]);
      if resource.Err? {
        assert entries[..i + 1][..i] == entries[..i];
        MapAllFailedPrefix(entries, i + 1, ParseResource);
        return Err(resource.error);
      }
      MapAllStep(entries, i, ParseResource);
      result := result + [resource.value];
      i := i + 1;
    }
    assert entries[..i] == entries;
    return Ok(result);
  }

  /** Resources succeeds exactly when the array is found and every entry parses, entry by entry. */
  lemma ResourcesOfArray(dataset: Object)
    ensures ResourceArray(dataset).Err? ==> Resources(dataset).Err?
    ensures var a := ResourceArray(dataset);
      a.Ok? ==>
        (Resources(dataset).Ok? <==> forall i :: 0 <= i < |a.value| ==> ParseResource(a.value[i]).Ok?) &&
        (Resources(dataset).Ok? ==> (|Resources(dataset).value| == |a.value| &&
          (a.value != [] ==> ParseResource(a.value[0]) == Ok(Resources(dataset).value[0]))))
  {
    if ResourceArray(dataset).Ok? {
      MapAllEntries(ResourceArray(dataset).value, ParseResource);
    }
  }

  /** getResource: the first resource, null if there is none. */
  method GetResource(dataset: Object, failIfMoreThanOne: bool) returns (r: Result<Option<Resource>>)
    ensures ResourceArray(dataset) == Ok([]) ==> r == Ok(None)
    ensures r == Ok(None) ==> ResourceArray(dataset) == Ok([])
    ensures failIfMoreThanOne && ResourceArray(dataset).Ok? && |ResourceArray(dataset).value| > 1 ==> r.Err?
    ensures r.Ok? && r.value.Some? ==> (ResourceArray(dataset).Ok? && |ResourceArray(dataset).value| >= 1
      && ParseResource(ResourceArray(dataset).value[0]) == Ok(r.value.value))
    ensures ResourceArray(dataset).Err? ==> r.Err?
    ensures var a := ResourceArray(dataset);
      a.Ok? && (exists i :: 0 <= i < |a.value| && ParseResource(a.value[i]).Err?) ==> r.Err?
    ensures var a := ResourceArray(dataset);
      (a.Ok? && a.value != [] && (forall i :: 0 <= i < |a.value| ==> ParseResource(a.value[i]).Ok?)
      && !(failIfMoreThanOne && |a.value| > 1)) ==> r == Ok(Some(ParseResource(a.value[0]).value))
  {
    ResourcesOfArray(dataset);
    var resources :- GetResources(dataset);
    if |resources| > 1 && failIfMoreThanOne {
      return Err("Dataset must have exactly one resource");
    }
    if resources == [] {
      return Ok(None);
    }
    return Ok(Some(resources[0]));
  }

  // ---------------------------------------------------------------- digest text

  /** Integer.toString(n, 16). */
  function Base16(n: nat): (r: string)
    ensures |r| >= 1
  {
    if n < 16 then [HexDigit(n)] else Base16(n / 16) + [HexDigit(n % 16)]
  }

  /** Integer.toString((b & 0xff) + 0x100, 16).substring(1). */
  function ByteHex(b: bv8): string
  {
    Base16(b as int + 0x100)[1..]
  }

  lemma ByteHexDigits(b: bv8)
    ensures ByteHex(b) == [HexDigit(b as int / 16), HexDigit(b as int % 16)]
  {
    var v := b as int;
    var hi, lo := v / 16, v % 16;
    assert 0 <= hi < 16 && 0 <= lo < 16 && v + 0x100 == 256 + 16 * hi + lo;
    Base16ThreeDigits(hi, lo);
  }

  /** A number from 0x100 to 0x1ff is written with three hex digits, the first one 1. */
  lemma Base16ThreeDigits(hi: int, lo: int)
    requires 0 <= hi < 16 && 0 <= lo < 16
    ensures Base16(256 + 16 * hi + lo) == [HexDigit(1), HexDigit(hi), HexDigit(lo)]
  {
    var m := 16 + hi;
    Base16TwoDigits(hi);
    Base16Last(m, lo);
    assert 256 + 16 * hi + lo == 16 * m + lo;
  }

  /** A number from 0x10 to 0x1f is written with two hex digits, the first one 1. */
  lemma Base16TwoDigits(hi: int)
    requires 0 <= hi < 16
    ensures Base16(16 + hi) == [HexDigit(1), HexDigit(hi)]
  {
    Base16Last(1, hi);
  }

  /** Appending a digit to a positive number appends its hex digit to the text. */
  lemma Base16Last(q: nat, r: int)
    requires q > 0 && 0 <= r < 16
    ensures Base16(16 * q + r) == Base16(q) + [HexDigit(r)]
  {
    DivMod16(16 * q + r, q, r);
  }

  /** The quotient and remainder by 16 of 16 * q + r, for a digit r. */
  lemma DivMod16(n: int, q: int, r: int)
    requires n == 16 * q + r && 0 <= r < 16
    ensures n / 16 == q && n % 16 == r
  {
  }

  /** The digest text: the bytes' hex pairs, in order. */
  function Hex(bytes: seq<bv8>): string
  {
    if bytes == [] then "" else Hex(bytes[..|bytes| - 1]) + ByteHex(bytes[|bytes| - 1])
  }

  /** The hex part of getFileChecksum, over the finished digest. */
  method HexDigest(digest: seq<bv8>) returns (s: string)
    ensures s == Hex(digest)
  {
    s := "";
    var i := 0;
    while i < |digest|
      invariant 0 <= i <= |digest| && s == Hex(digest[..i])
    {
      assert digest[..i + 1][..i] == digest[..i];
      s := s + ByteHex(digest[i]);
      i := i + 1;
    }
    assert digest[..i] == digest;
  }

  predicate IsLowerHex(c: char)
  {
    ('0' <= c <= '9') || ('a' <= c <= 'f')
  }

  /** Two lower-case hex characters per byte, high nibble first, in byte order. */
  lemma {:induction false} HexAt(bytes: seq<bv8>)
    ensures |Hex(bytes)| == 2 * |bytes|
    ensures forall i :: 0 <= i < |bytes| ==>
      Hex(bytes)[2 * i] == HexDigit(bytes[i] as int / 16) && Hex(bytes)[2 * i + 1] == HexDigit(bytes[i] as int % 16)
    ensures forall j :: 0 <= j < |Hex(bytes)| ==> IsLowerHex(Hex(bytes)[j])
  {
    if bytes != [] {
      var init, last := bytes[..|bytes| - 1], bytes[|bytes| - 1];
      HexAt(init);
      ByteHexDigits(last);
      var h, t := Hex(init), Hex(bytes);
      assert t == h + ByteHex(last);
      forall i | 0 <= i < |bytes| ensures t[2 * i] == HexDigit(bytes[i] as int / 16) && t[2 * i + 1] == HexDigit(bytes[i] as int % 16) {
        PairAt(init, last, h, i);
      }
      forall j | 0 <= j < |t| ensures IsLowerHex(t[j]) {
        if j >= |h| {
          assert t[j] == ByteHex(last)[j - |h|];
          LowerHexDigit(last as int / 16);
          LowerHexDigit(last as int % 16);
        }
      }
    }
  }

  lemma LowerHexDigit(d: nat)
    requires d < 16
    ensures IsLowerHex(HexDigit(d))
  {
  }

  /** Position i of the text after appending one byte's pair. */
  lemma PairAt(init: seq<bv8>, last: bv8, h: string, i: nat)
    requires |h| == 2 * |init| && i <= |init|
    requires forall k :: 0 <= k < |init| ==> h[2 * k] == HexDigit(init[k] as int / 16) && h[2 * k + 1] == HexDigit(init[k] as int % 16)
    requires ByteHex(last) == [HexDigit(last as int / 16), HexDigit(last as int % 16)]
    ensures var t, b := h + ByteHex(last), (init + [last])[i];
      t[2 * i] == HexDigit(b as int / 16) && t[2 * i + 1] == HexDigit(b as int % 16)
  {
    if i < |init| {
      assert (init + [last])[i] == init[i];
    }
  }

  function HexValue(c: char): nat
  {
    if '0' <= c <= '9' then c as int - 48 else if 'a' <= c <= 'f' then c as int - 87 else 0
  }

  lemma HexValueOfDigit(d: nat)
    requires d < 16
    ensures HexValue(HexDigit(d)) == d
  {
  }

  lemma NibblesDetermine(x: nat, y: nat)
    requires x < 256 && y < 256
    requires HexDigit(x / 16) == HexDigit(y / 16) && HexDigit(x % 16) == HexDigit(y % 16)
    ensures x == y
  {
    HexValueOfDigit(x / 16);
    HexValueOfDigit(y / 16);
    HexValueOfDigit(x % 16);
    HexValueOfDigit(y % 16);
  }

  /** Different digests have different texts: the hex encoding can be read back. */
  lemma HexInjective(a: seq<bv8>, b: seq<bv8>)
    requires Hex(a) == Hex(b)
    ensures a == b
  {
    HexAt(a);
    HexAt(b);
    assert |a| == |b|;
    forall i | 0 <= i < |a| ensures a[i] == b[i] {
      assert Hex(a)[2 * i] == Hex(b)[2 * i] && Hex(a)[2 * i + 1] == Hex(b)[2 * i + 1];
      NibblesDetermine(a[i] as int, b[i] as int);
    }
  }
}
