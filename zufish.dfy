/**
 * ZufishServices: turns the online services listed by the Zufish portal (a
 * JSON array) into a CSV file and a JSON file with one record per service.
 * The downloaded array is the input; the two files are the output.
 */
module ZufishServices {
  import opened Wrappers
  import opened Text
  import opened Json
  import opened CsvText

  /** What the generator keeps of one service. */
  datatype Service = Service(
    id: string,
    link: string,
    name: string,
    deliveryChannel: string,
    hasPaymentMethod: bool,
    trustLevel: string)

  const Header: string := "id,url,name,deliveryChannel,hasPaymentMethod,trustLevel"

  /**
   * The key of deliveryChannel.communicationSystem.type, or "" when that path
   * stops early; a member on the path that is there but is no object fails.
   */
  function DeliveryChannel(os: Object): (r: Result<string>)
    ensures "deliveryChannel" !in os ==> r == Ok("")
    ensures "deliveryChannel" in os && !os["deliveryChannel"].JObj? ==> r.Err?
    ensures "deliveryChannel" in os && os["deliveryChannel"].JObj? ==>
      var dc := os["deliveryChannel"].fields;
      ("communicationSystem" !in dc ==> r == Ok("")) &&
      ("communicationSystem" in dc && !dc["communicationSystem"].JObj? ==> r.Err?) &&
      ("communicationSystem" in dc && dc["communicationSystem"].JObj? ==>
        var cs := dc["communicationSystem"].fields;
        ("type" !in cs ==> r == Ok("")) &&
        ("type" in cs ==>
          (r.Ok? <==> cs["type"].JObj? && "key" in cs["type"].fields && cs["type"].fields["key"].JStr?) &&
          (r.Ok? ==> cs["type"].fields["key"] == JStr(r.value))))
  {
    if !Has(os, "deliveryChannel") then Ok("")
    else
      var dc :- GetObject(os, "deliveryChannel");
      if !Has(dc, "communicationSystem") then Ok("")
      else
        var cs :- GetObject(dc, "communicationSystem");
        if !Has(cs, "type") then Ok("")
        else
          var t :- GetObject(cs, "type");
          GetString(t, "key")
  }

  /** The members of one service as the generator reads them, in its order. */
  function ReadObject(os: Object): (r: Result<Service>)
  {
    var idValue :- Get(os, "id");
    var link :- GetString(os, "link");
    var name :- GetString(os, "name");
    var deliveryChannel :- DeliveryChannel(os);
    var payments :- GetArray(os, "paymentMethods");
    var trustLevel :- GetString(os, "trustLevel");
    Ok(Service(ToText(idValue), link, name, deliveryChannel, |payments| > 0, trustLevel))
  }

  /** An array element the generator can read: an object whose "object" member holds every member it needs. */
  predicate Readable(el: Json)
  {
    el.JObj? && "object" in el.fields && el.fields["object"].JObj? &&
    var os := el.fields["object"].fields;
    "id" in os && "link" in os && os["link"].JStr? && "name" in os && os["name"].JStr? &&
    DeliveryChannel(os).Ok? &&
    "paymentMethods" in os && os["paymentMethods"].JArr? &&
    "trustLevel" in os && os["trustLevel"].JStr?
  }

  /**
   * One array element: getJSONObject(i).getJSONObject("object"), then the
   * members. The id may be any value and is kept as its text; the service has
   * a payment method iff its paymentMethods array is not empty.
   */
  function ReadService(el: Json): (r: Result<Service>)
    ensures r.Ok? <==> Readable(el)
    ensures r.Ok? ==>
      var os := el.fields["object"].fields;
      r.value.id == ToText(os["id"]) &&
      os["link"] == JStr(r.value.link) &&
      os["name"] == JStr(r.value.name) &&
      DeliveryChannel(os) == Ok(r.value.deliveryChannel) &&
      (r.value.hasPaymentMethod <==> os["paymentMethods"].items != []) &&
      os["trustLevel"] == JStr(r.value.trustLevel)
  {
    if !el.JObj? then Err("JSONArray[i] is not a JSONObject.")
    else
      var os :- GetObject(el.fields, "object");
      ReadObject(os)
  }

  /** The CSV line of a service: only the name is put in quotes. */
  function CsvRow(s: Service): string
  {
    s.id + "," + s.link + ",\"" + s.name + "\"," + s.deliveryChannel + "," +
    BoolText(s.hasPaymentMethod) + "," + s.trustLevel
  }

  /** The JSON record of a service. */
  function Record(s: Service): Json
  {
    JObj(map[
      "id" := JStr(s.id),
      "link" := JStr(s.link),
      "name" := JStr(s.name),
      "deliveryChannel" := JStr(s.deliveryChannel),
      "hasPaymentMethod" := JBool(s.hasPaymentMethod),
      "trustLevel" := JStr(s.trustLevel)])
  }

  function Rows(ss: seq<Service>): (r: seq<string>)
    ensures |r| == |ss|
  {
    seq(|ss|, i requires 0 <= i < |ss| => CsvRow(ss[i]))
  }

  function Records(ss: seq<Service>): (r: seq<Json>)
    ensures |r| == |ss|
  {
    seq(|ss|, i requires 0 <= i < |ss| => Record(ss[i]))
  }

  /** Every element of the array read in order; the first one that cannot be read stops the generator. */
  function Services(input: seq<Json>): Result<seq<Service>>
  {
    MapAll(input, ReadService)
  }

  /**
   * generateDistributions over the downloaded array. `csv` holds the lines
   * printed to online-services.csv, which are there even when an element
   * fails (the header and the rows before it); `json` is what
   * online-services.json receives, or the exception that leaves it unwritten.
   */
  method GenerateDistributions(input: seq<Json>) returns (csv: seq<string>, json: Result<Json>)
    ensures Services(input).Ok? ==>
      csv == [Header] + Rows(Services(input).value) &&
      json == Ok(JArr(Records(Services(input).value)))
    ensures Services(input).Err? ==>
      json == Err(Services(input).error) &&
      exists k :: 0 <= k < |input| && Services(input[..k]).Ok? && ReadService(input[k]).Err? &&
        csv == [Header] + Rows(Services(input[..k]).value)
  {
    csv := [Header];
    var output: seq<Json> := [];
    ghost var done: seq<Service> := [];
    assert input[..0] == [];
    for i := 0 to |input|
      invariant Services(input[..i]) == Ok(done)
      invariant csv == [Header] + Rows(done)
      invariant output == Records(done)
    {
      var service := ReadService(input[i]);
      if service.Err? {
        assert Services(input) == Err(service.error) by {
          assert input[..i + 1][..i] == input[..i];
          MapAllFailedPrefix(input, i + 1, ReadService);
        }
        assert Services(input[..i]).Ok? && ReadService(input[i]).Err? && csv == [Header] + Rows(Services(input[..i]).value);
        json := Err(service.error);
        return;
      }
      MapAllStep(input, i, ReadService);
      output := output + [Record(service.value)];
      csv := csv + [CsvRow(service.value)];
      OneMore(done, service.value);
      done := done + [service.value];
    }
    assert input[..|input|] == input;
    json := Ok(JArr(output));
  }

  /** One more service adds its row and its record. */
  lemma OneMore(done: seq<Service>, s: Service)
    ensures Rows(done + [s]) == Rows(done) + [CsvRow(s)]
    ensures Records(done + [s]) == Records(done) + [Record(s)]
  {
    assert Rows(done + [s]) == Rows(done) + [CsvRow(s)];
    assert Records(done + [s]) == Records(done) + [Record(s)];
  }

  /**
   * When every element can be read, the CSV has the header and then exactly one
   * row per element, and the JSON exactly one record per element, both in
   * input order.
   */
  lemma OnePerElement(input: seq<Json>)
    requires forall i :: 0 <= i < |input| ==> Readable(input[i])
    ensures Services(input).Ok?
    ensures var ss := Services(input).value;
      |Rows(ss)| == |input| && |Records(ss)| == |input| &&
      forall i :: 0 <= i < |input| ==>
        Rows(ss)[i] == CsvRow(ReadService(input[i]).value) &&
        Records(ss)[i] == Record(ReadService(input[i]).value)
  {
    MapAllEntries(input, ReadService);
  }

  /** Any element that cannot be read fails the whole run. */
  lemma AnyFailureFails(input: seq<Json>, k: nat)
    requires k < |input| && !Readable(input[k])
    ensures Services(input).Err?
  {
    MapAllEntries(input, ReadService);
  }

  /** The JSON record reads back as the service it was made of. */
  function RecordService(j: Json): (r: Result<Service>)
  {
    if !j.JObj? then Err("not a JSONObject")
    else
      var o := j.fields;
      var id :- GetString(o, "id");
      var link :- GetString(o, "link");
      var name :- GetString(o, "name");
      var deliveryChannel :- GetString(o, "deliveryChannel");
      var hasPaymentMethod :- GetBoolean(o, "hasPaymentMethod");
      var trustLevel :- GetString(o, "trustLevel");
      Ok(Service(id, link, name, deliveryChannel, hasPaymentMethod, trustLevel))
  }

  lemma RecordRoundTrip(s: Service)
    ensures RecordService(Record(s)) == Ok(s)
  {
  }

  /** A field that needs no quotes to be read back: no comma, no quote. */
  predicate PlainService(s: Service)
  {
    Plain(s.id) && Plain(s.link) && '"' !in s.name && Plain(s.deliveryChannel) && Plain(s.trustLevel)
  }

  /** The six fields of a service's CSV line, in order. */
  function Fields(s: Service): seq<string>
  {
    [s.id, s.link, s.name, s.deliveryChannel, BoolText(s.hasPaymentMethod), s.trustLevel]
  }

  /** The row and its fields, taken apart from the front. */
  lemma RowFromFront(s: Service)
    ensures var b := BoolText(s.hasPaymentMethod);
      CsvRow(s) == s.id + "," + (s.link + "," + ("\"" + s.name + "\"," + (s.deliveryChannel + "," + (b + "," + s.trustLevel)))) &&
      Fields(s) == [s.id] + ([s.link] + ([s.name] + ([s.deliveryChannel] + ([b] + [s.trustLevel]))))
  {
  }

  /**
   * The CSV line reads back as its six fields, the name's quotes removed, as
   * long as no field but the quoted name holds a comma and none holds a quote.
   */
  lemma CsvRowFields(s: Service)
    requires PlainService(s)
    ensures ParseFields(CsvRow(s)) == Some(Fields(s))
  {
    var b := BoolText(s.hasPaymentMethod);
    assert Plain(b);
    ParsePlainLast(s.trustLevel);
    ParsePlainThen(b, s.trustLevel);
    var tail3 := b + "," + s.trustLevel;
    ParsePlainThen(s.deliveryChannel, tail3);
    var tail4 := s.deliveryChannel + "," + tail3;
    ParseQuotedThen(s.name, tail4);
    var tail5 := "\"" + s.name + "\"," + tail4;
    ParsePlainThen(s.link, tail5);
    var tail6 := s.link + "," + tail5;
    ParsePlainThen(s.id, tail6);
    RowFromFront(s);
  }
}
