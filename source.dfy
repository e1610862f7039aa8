/**
 * The data model shared by every data source: status codes, field values and
 * records, the recursive filter tree, pagination, sort entries, list results,
 * the events a source fires, decoded server bodies, the query key and the
 * cache that `getSerializationData` reads.
 */
module Source {
  import opened Wrappers
  import opened Text

  // ---------------------------------------------------------------------------
  // status

  /** `CrudErrorCodes`. */
  datatype ErrorCode = OK | ERROR {
    /** The enum's numeric value: OK is 0 and ERROR is 1, so only ERROR is truthy. */
    function Code(): (n: int)
      ensures n == 0 || n == 1
      ensures n != 0 <==> this == ERROR
    {
      if OK? then 0 else 1
    }
  }

  /** `ICrudStatus`: an error code and an optional message. */
  datatype Status = Status(errorCode: ErrorCode, errorMessage: Option<string>)

  function OkStatus(): Status { Status(OK, None) }

  function ErrorStatus(message: string): Status { Status(ERROR, Some(message)) }

  // ---------------------------------------------------------------------------
  // records

  /** A field value: a number, a string, or `undefined` (an absent field). */
  datatype Value = Undefined | Num(n: int) | Str(s: string)

  /** A record: field name to value; a name that is not a key reads `undefined`. */
  type Record = map<string, Value>

  /** `record[field]`. */
  function Get(r: Record, field: string): Value
  {
    if field in r then r[field] else Undefined
  }

  /** Template-literal text of a value: `${value}`. */
  function ToText(v: Value): string
  {
    match v
    case Undefined => "undefined"
    case Num(n) => IntToString(n)
    case Str(s) => s
  }

  // ---------------------------------------------------------------------------
  // filters

  /** `CrudFilterOperator`. */
  datatype Operator = EQ | GT | GTE | LT | LTE | NOTEQ | LIKE

  /** `CrudAggregation`. */
  datatype Aggregation = AND | OR

  /**
   * `ICrudFilter`: either a field condition `{operator?, field, value}` or an
   * aggregation `{aggregation, filter: children}`; the type tag
   * (`CrudFilterFieldTypes`) is the constructor.
   */
  datatype FilterNode =
    | Condition(operator: Option<Operator>, field: string, value: Value)
    | Aggregate(aggregation: Aggregation, filter: seq<FilterNode>)

  // ---------------------------------------------------------------------------
  // pagination, sorting, list results

  /** `ICrudPagination`. */
  datatype Pagination = Pagination(page: int, countOnPage: int)

  datatype Direction = ASC | DESC

  /** `ICrudSorting`: a field and an optional direction. */
  datatype SortEntry = SortEntry(field: string, direction: Option<Direction>)

  datatype Meta = Meta(hasNextPage: Option<bool>)

  /** `ICrudList`: one page of records and its continuation flag. */
  datatype ListResult = ListResult(data: seq<Record>, meta: Meta)

  // ---------------------------------------------------------------------------
  // events

  /** `CrudEvents`, plus the custom-query-parameter event that list views also subscribe to. */
  datatype Event = OnCreate | OnDelete | OnUpdate | OnChangeCustomQueryParams

  // ---------------------------------------------------------------------------
  // decoded bodies

  /**
   * A decoded JSON value as the sources pass it around: `null`, one record, an
   * array, a list result or a status. It is what a server answers, what an
   * event carries and what the cache holds.
   */
  datatype Body =
    | Null
    | Item(record: Record)
    | Array(elems: seq<Body>)
    | Listing(list: ListResult)
    | StatusBody(status: Status)

  /** An array of records, as `fire` receives `items` or `[record]`. */
  function Records(items: seq<Record>): (b: Body)
    ensures b.Array? && |b.elems| == |items|
    ensures forall i :: 0 <= i < |items| ==> b.elems[i] == Item(items[i])
  {
    Array(seq(|items|, i requires 0 <= i < |items| => Item(items[i])))
  }

  /** JavaScript truthiness of a field value. */
  predicate TruthyValue(v: Value)
  {
    match v
    case Undefined => false
    case Num(n) => n != 0
    case Str(s) => s != ""
  }

  /** `(body as ICrudStatus).errorCode` is truthy (for a body that is not null). */
  predicate CarriesError(b: Body)
  {
    match b
    case StatusBody(s) => s.errorCode.Code() != 0
    case Item(r) => TruthyValue(Get(r, "errorCode"))
    case _ => false
  }

  // ---------------------------------------------------------------------------
  // query keys and the cache

  /**
   * The key of `{filter, pagination, sorting}`. A member that is `undefined` is
   * absent from the key, so `None` and `Some([])` are different keys.
   */
  datatype QueryKey = Key(
    filter: Option<seq<FilterNode>>,
    pagination: Option<Pagination>,
    sorting: Option<seq<SortEntry>>)

  type Cache = map<QueryKey, Body>

  /** The key a list call with these arguments reads and writes. */
  function ListKey(filter: seq<FilterNode>, pagination: Pagination, sorting: Option<seq<SortEntry>>): QueryKey
  {
    Key(Some(filter), Some(pagination), sorting)
  }

  /** `getSerializationData(filter, pagination, sorting)`: the cached entry, or `null`. */
  function GetSerializationData(cache: Cache, filter: seq<FilterNode>, pagination: Pagination,
                                sorting: Option<seq<SortEntry>>): (b: Body)
    ensures ListKey(filter, pagination, sorting) !in cache ==> b == Null
    ensures ListKey(filter, pagination, sorting) in cache ==> b == cache[ListKey(filter, pagination, sorting)]
  {
    var key := ListKey(filter, pagination, sorting);
    if key in cache then cache[key] else Null
  }

  /**
   * The bundle a source may be constructed from: a list result or a status,
   * and the query it answers.
   */
  datatype Bundle = Bundle(
    data: Body,
    filter: Option<seq<FilterNode>>,
    pagination: Option<Pagination>,
    sorting: Option<seq<SortEntry>>)

  /** The cache a source starts with: the bundle's entry under the bundle's query. */
  function SeedCache(bundle: Option<Bundle>): (c: Cache)
    ensures bundle.None? ==> c == map[]
    ensures bundle.Some? ==> c == map[Key(bundle.value.filter, bundle.value.pagination, bundle.value.sorting) := bundle.value.data]
  {
    match bundle
    case None => map[]
    case Some(b) => map[Key(b.filter, b.pagination, b.sorting) := b.data]
  }

  /** A seeded cache answers exactly the bundle's own query. */
  lemma SeededLookup(b: Bundle, filter: seq<FilterNode>, pagination: Pagination, sorting: Option<seq<SortEntry>>)
    ensures GetSerializationData(SeedCache(Some(b)), filter, pagination, sorting)
            == if b.filter == Some(filter) && b.pagination == Some(pagination) && b.sorting == sorting
               then b.data else Null
  {
  }
}
