/**
 * `Http`: a data source that forwards every operation to a server under
 * `httpEndPoint`. The network is not modelled: each operation takes the
 * transport's answer to its request as a parameter and is modelled by what it
 * makes of that answer — the value it resolves to, the event it fires and,
 * for `list`, the cache entry it writes.
 */
module HttpSource {
  import opened Wrappers
  import opened Text
  import opened Source
  import opened Emitter

  // ---------------------------------------------------------------------------
  // requests

  datatype Verb = GET | POST

  /** What a request carries besides its path: nothing, records, one object, a key lookup or a list query. */
  datatype Payload =
    | NoPayload
    | ItemsPayload(items: seq<Record>)
    | ObjectPayload(fields: Record)
    | KeyQuery(name: string, value: string)
    | ListQuery(key: QueryKey)

  /** One request; the JSON and URI encodings of the payload are not modelled. */
  datatype Request = Request(verb: Verb, url: string, payload: Payload)

  /** The default `httpEndPoint`. */
  const DefaultEndpoint: string := "/crud"

  function CreateRequest(endpoint: string, items: seq<Record>): Request
  {
    Request(POST, endpoint + "/create", ItemsPayload(items))
  }

  function ReadRequest(endpoint: string, keyField: string, id: Value): Request
  {
    Request(GET, endpoint + "/read", KeyQuery(keyField, ToText(id)))
  }

  function UpdateRequest(endpoint: string, patch: Record): Request
  {
    Request(POST, endpoint + "/update", ObjectPayload(patch))
  }

  /** The delete body `{[keyField]: id}`. */
  function DeleteRequest(endpoint: string, keyField: string, id: Value): (req: Request)
    ensures req.payload.ObjectPayload? && req.payload.fields.Keys == {keyField}
    ensures Get(req.payload.fields, keyField) == id
  {
    Request(POST, endpoint + "/delete", ObjectPayload(map[keyField := id]))
  }

  function ListRequest(endpoint: string, filter: seq<FilterNode>, pagination: Pagination,
                       sorting: Option<seq<SortEntry>>): Request
  {
    Request(GET, endpoint + "/list", ListQuery(ListKey(filter, pagination, sorting)))
  }

  /** Writes are posted, reads are fetched with GET, and each goes to `<endpoint>/<operation>`. */
  lemma RequestShapes(endpoint: string, keyField: string, items: seq<Record>, patch: Record, id: Value,
                      filter: seq<FilterNode>, pagination: Pagination, sorting: Option<seq<SortEntry>>)
    ensures CreateRequest(endpoint, items).verb == POST && UpdateRequest(endpoint, patch).verb == POST &&
            DeleteRequest(endpoint, keyField, id).verb == POST
    ensures ReadRequest(endpoint, keyField, id).verb == GET && ListRequest(endpoint, filter, pagination, sorting).verb == GET
    ensures forall req :: req in [CreateRequest(endpoint, items), ReadRequest(endpoint, keyField, id),
                                  UpdateRequest(endpoint, patch), DeleteRequest(endpoint, keyField, id),
                                  ListRequest(endpoint, filter, pagination, sorting)]
                          ==> endpoint + "/" <= req.url
  {
    var a := "/create"; var b := "/read"; var c := "/update"; var d := "/delete"; var e := "/list";
    assert (endpoint + a)[..|endpoint| + 1] == endpoint + "/";
    assert (endpoint + b)[..|endpoint| + 1] == endpoint + "/";
    assert (endpoint + c)[..|endpoint| + 1] == endpoint + "/";
    assert (endpoint + d)[..|endpoint| + 1] == endpoint + "/";
    assert (endpoint + e)[..|endpoint| + 1] == endpoint + "/";
  }

  // ---------------------------------------------------------------------------
  // responses

  /** What `response.json()` yields: a decoded body, or the error it rejects with. */
  datatype Parsed = Json(body: Body) | Malformed(message: string)

  /** The transport's answer: a response, or the error `fetch` rejects with. */
  datatype Transport =
    | Answered(status: int, statusText: string, parsed: Parsed)
    | Failed(message: string)

  /**
   * The promise chain up to the decoded body: a 200 answer yields its body;
   * another status throws `Error(statusText)`; a failing fetch or decoding
   * rejects with its own message.
   */
  function Decoded(t: Transport): (r: Result<Body, string>)
    ensures r.Ok? <==> t.Answered? && t.status == 200 && t.parsed.Json?
    ensures t.Answered? && t.status != 200 ==> r == Err(t.statusText)
    ensures r.Ok? ==> r.value == t.parsed.body
  {
    match t
    case Failed(message) => Err(message)
    case Answered(status, statusText, parsed) =>
      if status != 200 then Err(statusText)
      else match parsed
        case Json(b) => Ok(b)
        case Malformed(message) => Err(message)
  }

  /** The catch at the end of every chain: the rejection's message as an ERROR status. */
  function Failure(message: string): Body
  {
    StatusBody(ErrorStatus(message))
  }

  const Success: Body := StatusBody(OkStatus())

  /** The message of the TypeError that reading `errorCode` of `null` throws. */
  const NullAccessMessage: string := "Cannot read properties of null (reading 'errorCode')"

  /** What a write resolves to and the argument of the event it fires, if it fires one. */
  datatype WriteOutcome = WriteOutcome(answer: Body, fired: Option<Body>)

  /** `create`: on success the event carries the server's body, not the request's items. */
  function CreateOutcome(t: Transport): (o: WriteOutcome)
    ensures o.fired.Some? <==> o.answer == Success
    ensures o.fired.Some? <==> Decoded(t).Ok?
    ensures Decoded(t).Ok? ==> o.fired == Some(Decoded(t).value)
    ensures Decoded(t).Err? ==> o.answer == Failure(Decoded(t).error)
  {
    match Decoded(t)
    case Ok(created) => WriteOutcome(Success, Some(created))
    case Err(message) => WriteOutcome(Failure(message), None)
  }

  /** `update`: on success the event carries `[server body]`. */
  function UpdateOutcome(t: Transport): (o: WriteOutcome)
    ensures o.fired.Some? <==> o.answer == Success
    ensures o.fired.Some? <==> Decoded(t).Ok?
    ensures Decoded(t).Ok? ==> o.fired == Some(Array([Decoded(t).value]))
    ensures Decoded(t).Err? ==> o.answer == Failure(Decoded(t).error)
  {
    match Decoded(t)
    case Ok(updated) => WriteOutcome(Success, Some(Array([updated])))
    case Err(message) => WriteOutcome(Failure(message), None)
  }

  /**
   * `delete`: a 200 body that carries a truthy `errorCode` is the answer
   * itself and fires nothing; reading `errorCode` of a `null` body throws; any other
   * 200 body fires onDelete with `[body]`.
   */
  function DeleteOutcome(t: Transport): (o: WriteOutcome)
    ensures o.fired.Some? <==> o.answer == Success
    ensures o.fired.Some? <==> Decoded(t).Ok? && Decoded(t).value != Null && !CarriesError(Decoded(t).value)
    ensures o.fired.Some? ==> o.fired == Some(Array([Decoded(t).value]))
    ensures Decoded(t).Ok? && CarriesError(Decoded(t).value) ==> o.answer == Decoded(t).value
    ensures Decoded(t).Ok? && Decoded(t).value == Null ==> o.answer == Failure(NullAccessMessage)
    ensures Decoded(t).Err? ==> o.answer == Failure(Decoded(t).error)
  {
    match Decoded(t)
    case Err(message) => WriteOutcome(Failure(message), None)
    case Ok(deleted) =>
      if deleted == Null then WriteOutcome(Failure(NullAccessMessage), None)
      else if CarriesError(deleted) then WriteOutcome(deleted, None)
      else WriteOutcome(Success, Some(Array([deleted])))
  }

  /** `read`: the decoded body as it is (so `null` stays `null`), or the failure. */
  function ReadOutcome(t: Transport): (b: Body)
    ensures Decoded(t).Ok? ==> b == Decoded(t).value
    ensures Decoded(t).Err? ==> b == Failure(Decoded(t).error)
  {
    match Decoded(t)
    case Ok(row) => row
    case Err(message) => Failure(message)
  }

  /** Every failure of the transport ends as an ERROR status with its message; none escapes and none fires. */
  lemma FailuresAreStatuses(t: Transport)
    requires Decoded(t).Err?
    ensures CreateOutcome(t) == WriteOutcome(Failure(Decoded(t).error), None)
    ensures UpdateOutcome(t) == WriteOutcome(Failure(Decoded(t).error), None)
    ensures DeleteOutcome(t) == WriteOutcome(Failure(Decoded(t).error), None)
    ensures ReadOutcome(t) == Failure(Decoded(t).error)
    ensures Failure(Decoded(t).error).status.errorCode.Code() != 0
  {
  }

  /** The 200-with-embedded-error answer of `delete` is handed back unchanged and fires nothing. */
  lemma EmbeddedErrorPassesThrough(message: string)
    ensures var t := Answered(200, "OK", Json(StatusBody(ErrorStatus(message))));
            DeleteOutcome(t) == WriteOutcome(StatusBody(ErrorStatus(message)), None)
  {
  }

  /** The calls a write makes for an outcome: its event's deliveries when it fires, none otherwise. */
  function Fired(hs: seq<Callback>, e: Event, fired: Option<Body>): (calls: seq<Call>)
    ensures fired.None? ==> calls == []
    ensures fired.Some? ==> calls == Deliveries(hs, e, fired.value)
  {
    if fired.Some? then Deliveries(hs, e, fired.value) else []
  }

  class Http {
    const keyField: string
    var endpoint: string
    var cache: Cache
    const emitter: EventEmitter

    constructor(keyField: string, bundle: Option<Bundle>)
      ensures this.keyField == keyField && endpoint == DefaultEndpoint
      ensures cache == SeedCache(bundle)
      ensures fresh(emitter) && emitter.handlers == map[]
    {
      this.keyField := keyField;
      endpoint := DefaultEndpoint;
      cache := SeedCache(bundle);
      emitter := new EventEmitter();
    }

    /** `create(items)`, given the transport's answer to the request it returns. */
    method Create(items: seq<Record>, t: Transport) returns (req: Request, answer: Body, calls: seq<Call>)
      ensures req == CreateRequest(endpoint, items)
      ensures answer == CreateOutcome(t).answer
      ensures calls == Fired(emitter.HandlersFor(OnCreate), OnCreate, CreateOutcome(t).fired)
    {
      req := CreateRequest(endpoint, items);
      var o := CreateOutcome(t);
      answer := o.answer;
      calls := [];
      if o.fired.Some? {
        calls := emitter.Fire(OnCreate, o.fired.value);
      }
    }

    /** `read(id)`: fires nothing and changes nothing. */
    method Read(id: Value, t: Transport) returns (req: Request, answer: Body)
      ensures req == ReadRequest(endpoint, keyField, id)
      ensures answer == ReadOutcome(t)
    {
      req := ReadRequest(endpoint, keyField, id);
      answer := ReadOutcome(t);
    }

    method Update(patch: Record, t: Transport) returns (req: Request, answer: Body, calls: seq<Call>)
      ensures req == UpdateRequest(endpoint, patch)
      ensures answer == UpdateOutcome(t).answer
      ensures calls == Fired(emitter.HandlersFor(OnUpdate), OnUpdate, UpdateOutcome(t).fired)
    {
      req := UpdateRequest(endpoint, patch);
      var o := UpdateOutcome(t);
      answer := o.answer;
      calls := [];
      if o.fired.Some? {
        calls := emitter.Fire(OnUpdate, o.fired.value);
      }
    }

    method Delete(id: Value, t: Transport) returns (req: Request, answer: Body, calls: seq<Call>)
      ensures req == DeleteRequest(endpoint, keyField, id)
      ensures answer == DeleteOutcome(t).answer
      ensures calls == Fired(emitter.HandlersFor(OnDelete), OnDelete, DeleteOutcome(t).fired)
    {
      req := DeleteRequest(endpoint, keyField, id);
      var o := DeleteOutcome(t);
      answer := o.answer;
      calls := [];
      if o.fired.Some? {
        calls := emitter.Fire(OnDelete, o.fired.value);
      }
    }

    /** `list(...)`: a decoded answer is cached under the query's key and returned; a failure leaves the cache alone. */
    method List(filter: seq<FilterNode>, pagination: Pagination, sorting: Option<seq<SortEntry>>, t: Transport)
      returns (req: Request, answer: Body)
      modifies this
      ensures req == ListRequest(old(endpoint), filter, pagination, sorting)
      ensures endpoint == old(endpoint)
      ensures Decoded(t).Ok? ==> answer == Decoded(t).value &&
                                 cache == old(cache)[ListKey(filter, pagination, sorting) := answer]
      ensures Decoded(t).Err? ==> answer == Failure(Decoded(t).error) && cache == old(cache)
    {
      req := ListRequest(endpoint, filter, pagination, sorting);
      match Decoded(t)
      case Ok(jsonData) =>
        cache := cache[ListKey(filter, pagination, sorting) := jsonData];
        answer := jsonData;
      case Err(message) =>
        answer := Failure(message);
    }
  }
}
