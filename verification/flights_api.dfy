/**
 * The flight-schedule client: the arrivals request, the classification of
 * what the HTTP exchange produced into a FlightAPI error, the extraction of
 * origin countries from the schedule document, and the memoising client.
 *
 * The HTTP exchange itself (httpx, the timeout, the network) is a parameter
 * `upstream: Request -> Outcome`.
 */
module FlightsApi {
  import opened Wrappers
  import opened JsonPath

  const DefaultBaseUrl: string := "https://api.flightapi.io"
  const ScheduleEndpoint: string := "compschedule"
  const HttpErrorMessage: string := "HTTP error occurred"
  const UnexpectedErrorMessage: string := "An unexpected error occurred"

  // ---------------------------------------------------------------------------
  // The arrivals path
  // ---------------------------------------------------------------------------

  /** From a top-level record to its array of arrivals. */
  const RecordToFlights: seq<string> := ["airport", "pluginData", "schedule", "arrivals", "data"]

  /** From one arrival to its origin-country name. */
  const FlightToCountryName: seq<string> := ["flight", "airport", "origin", "position", "country", "name"]

  /**
   * `$[*].airport.pluginData.schedule.arrivals.data[*].flight.airport.origin.position.country.name`
   * as steps: `[*]`, the names down to a record's arrivals, `[*]`, the names down to a country name.
   */
  const ArrivalsPath: Path := [Wildcard] + Fields(RecordToFlights) + [Wildcard] + Fields(FlightToCountryName)

  /**
   * The origin-country names of a schedule document read directly, record by
   * record and, within a record, arrival by arrival.
   */
  function Origins(doc: Json): seq<Json>
  {
    if doc.Arr? then RecordsOrigins(doc.items) else []
  }

  function RecordsOrigins(records: seq<Json>): seq<Json>
  {
    if records == [] then [] else RecordOrigins(records[0]) + RecordsOrigins(records[1..])
  }

  function RecordOrigins(record: Json): seq<Json>
  {
    match Lookup(record, RecordToFlights)
    case Some(Arr(flights)) => FlightsOrigins(flights)
    case _ => []
  }

  function FlightsOrigins(flights: seq<Json>): seq<Json>
  {
    if flights == [] then []
    else
      (match Lookup(flights[0], FlightToCountryName) case Some(name) => [name] case None => [])
      + FlightsOrigins(flights[1..])
  }

  lemma {:induction false} FlightsMatch(flights: seq<Json>)
    ensures FindEach(flights, Fields(FlightToCountryName)) == FlightsOrigins(flights)
  {
    if flights != [] {
      assert Fields(FlightToCountryName) + [] == Fields(FlightToCountryName);
      FindFields(flights[0], FlightToCountryName, []);
      FlightsMatch(flights[1..]);
    }
  }

  lemma RecordMatch(record: Json)
    ensures Find(record, Fields(RecordToFlights) + ([Wildcard] + Fields(FlightToCountryName)))
         == RecordOrigins(record)
  {
    FindFields(record, RecordToFlights, [Wildcard] + Fields(FlightToCountryName));
    var found := Lookup(record, RecordToFlights);
    if found.Some? {
      FindWildcard(found.value, Fields(FlightToCountryName));
      if found.value.Arr? {
        FlightsMatch(found.value.items);
      }
    }
  }

  lemma {:induction false} RecordsMatch(records: seq<Json>)
    ensures FindEach(records, Fields(RecordToFlights) + ([Wildcard] + Fields(FlightToCountryName)))
         == RecordsOrigins(records)
  {
    if records != [] {
      RecordMatch(records[0]);
      RecordsMatch(records[1..]);
    }
  }

  /**
   * Evaluating the arrivals path yields exactly the origin-country names,
   * first record first and, within a record, in arrival order.
   */
  lemma ExtractIsOrigins(doc: Json)
    ensures Find(doc, ArrivalsPath) == Origins(doc)
  {
    var rest := Fields(RecordToFlights) + ([Wildcard] + Fields(FlightToCountryName));
    assert ArrivalsPath == [Wildcard] + rest;
    FindWildcard(doc, rest);
    if doc.Arr? {
      RecordsMatch(doc.items);
    }
  }

  lemma {:induction false} RecordsOriginsAppend(a: seq<Json>, b: seq<Json>)
    ensures RecordsOrigins(a + b) == RecordsOrigins(a) + RecordsOrigins(b)
  {
    if a == [] {
      assert a + b == b;
    } else {
      assert (a + b)[1..] == a[1..] + b;
      RecordsOriginsAppend(a[1..], b);
    }
  }

  /** Extraction from a top-level array is the concatenation of the extractions from its parts. */
  lemma ExtractAppend(a: seq<Json>, b: seq<Json>)
    ensures Find(Arr(a + b), ArrivalsPath) == Find(Arr(a), ArrivalsPath) + Find(Arr(b), ArrivalsPath)
  {
    ExtractIsOrigins(Arr(a + b));
    ExtractIsOrigins(Arr(a));
    ExtractIsOrigins(Arr(b));
    RecordsOriginsAppend(a, b);
  }

  /** A record lacking a field on the way to its arrivals contributes nothing; the other records still contribute theirs. */
  lemma RecordWithoutArrivals(a: seq<Json>, record: Json, b: seq<Json>)
    requires Lookup(record, RecordToFlights).None? || !Lookup(record, RecordToFlights).value.Arr?
    ensures Find(Arr(a + [record] + b), ArrivalsPath) == Find(Arr(a), ArrivalsPath) + Find(Arr(b), ArrivalsPath)
  {
    ExtractIsOrigins(Arr(a + [record] + b));
    ExtractIsOrigins(Arr(a));
    ExtractIsOrigins(Arr(b));
    assert RecordOrigins(record) == [];
    assert RecordsOrigins([record]) == [] by {
      assert [record][1..] == [];
    }
    RecordsOriginsAppend(a + [record], b);
    RecordsOriginsAppend(a, [record]);
    assert RecordsOrigins(a + [record]) == RecordsOrigins(a);
  }

  lemma {:induction false} FlightsOriginsAppend(a: seq<Json>, b: seq<Json>)
    ensures FlightsOrigins(a + b) == FlightsOrigins(a) + FlightsOrigins(b)
  {
    if a == [] {
      assert a + b == b;
    } else {
      assert (a + b)[1..] == a[1..] + b;
      FlightsOriginsAppend(a[1..], b);
    }
  }

  /** An arrival lacking a field on the way to its country name contributes nothing; the other arrivals of its record still contribute theirs. */
  lemma FlightWithoutCountry(record: Json, a: seq<Json>, flight: Json, b: seq<Json>)
    requires Lookup(record, RecordToFlights) == Some(Arr(a + [flight] + b))
    requires Lookup(flight, FlightToCountryName).None?
    ensures RecordOrigins(record) == FlightsOrigins(a) + FlightsOrigins(b)
  {
    assert FlightsOrigins([flight]) == [] by {
      assert [flight][1..] == [];
    }
    FlightsOriginsAppend(a + [flight], b);
    FlightsOriginsAppend(a, [flight]);
  }

  /** A document with no arrivals to walk yields no names, not an error. */
  lemma ExtractNothing(doc: Json)
    requires !doc.Arr? || forall i :: 0 <= i < |doc.items| ==> RecordOrigins(doc.items[i]) == []
    ensures Find(doc, ArrivalsPath) == []
  {
    ExtractIsOrigins(doc);
    if doc.Arr? {
      NoRecordOrigins(doc.items);
    }
  }

  lemma {:induction false} NoRecordOrigins(records: seq<Json>)
    requires forall i :: 0 <= i < |records| ==> RecordOrigins(records[i]) == []
    ensures RecordsOrigins(records) == []
  {
    if records != [] {
      NoRecordOrigins(records[1..]);
    }
  }

  /** One arrival from a country, with an unrelated sibling member. */
  function FixtureFlight(country: string): Json
  {
    Obj(map["flight" := Nest(["airport", "origin", "position", "country", "name"], Str(country)),
            "status" := Str("landed")])
  }

  /** One top-level record holding the given arrivals. */
  function ScheduleRecord(flights: seq<Json>): Json
  {
    Nest(RecordToFlights, Arr(flights))
  }

  /** Two records, one arrival each, from India and from Thailand. */
  function Fixture(): Json
  {
    Arr([ScheduleRecord([FixtureFlight("India")]), ScheduleRecord([FixtureFlight("Thailand")])])
  }

  lemma FixtureRecordOrigins(country: string)
    ensures RecordOrigins(ScheduleRecord([FixtureFlight(country)])) == [Str(country)]
  {
    var names := ["airport", "origin", "position", "country", "name"];
    assert "flight" != "status" by { assert "flight"[0] != "status"[0]; }
    LookupNest(names, Str(country));
    assert FlightToCountryName[1..] == names;
    assert Lookup(FixtureFlight(country), FlightToCountryName) == Some(Str(country));
    LookupNest(RecordToFlights, Arr([FixtureFlight(country)]));
    assert FlightsOrigins([FixtureFlight(country)]) == [Str(country)] by {
      assert [FixtureFlight(country)][1..] == [];
    }
  }

  /** Two one-arrival records yield their countries, first record first. */
  lemma TwoRecordsOrigins(c1: string, c2: string)
    ensures Find(Arr([ScheduleRecord([FixtureFlight(c1)]), ScheduleRecord([FixtureFlight(c2)])]), ArrivalsPath)
         == [Str(c1), Str(c2)]
  {
    var r1, r2 := ScheduleRecord([FixtureFlight(c1)]), ScheduleRecord([FixtureFlight(c2)]);
    ExtractIsOrigins(Arr([r1, r2]));
    FixtureRecordOrigins(c1);
    FixtureRecordOrigins(c2);
    assert [r1, r2][1..] == [r2] && [r2][1..] == [];
    assert RecordsOrigins([r2]) == [Str(c2)];
    assert RecordsOrigins([r1, r2]) == [Str(c1)] + [Str(c2)];
  }

  /** The India and Thailand records' countries come out in that order. */
  lemma FixtureExtraction()
    ensures Find(Fixture(), ArrivalsPath) == [Str("India"), Str("Thailand")]
  {
    TwoRecordsOrigins("India", "Thailand");
  }

  // ---------------------------------------------------------------------------
  // The request
  // ---------------------------------------------------------------------------

  datatype ParamValue = Text(text: string) | Int(number: int)

  /** A GET request: the URL and the query parameters in order. */
  datatype Request = Request(url: string, params: seq<(string, ParamValue)>)

  /** `FlightAPI`: the base URL and the credential token, fixed at construction. */
  datatype FlightApi = FlightApi(baseUrl: string, token: string)

  function NewFlightApi(token: string): FlightApi
  {
    FlightApi(DefaultBaseUrl, token)
  }

  /** The URL of an endpoint: base URL, endpoint and token, separated by slashes. */
  function EndpointUrl(api: FlightApi, endpoint: string): string
  {
    api.baseUrl + "/" + endpoint + "/" + api.token
  }

  /** The request for today's arrivals at an airport; the code is sent as given. */
  function ArrivalsRequest(api: FlightApi, airportCode: string): Request
  {
    Request(EndpointUrl(api, ScheduleEndpoint),
            [("mode", Text("arrivals")), ("iata", Text(airportCode)), ("day", Int(1))])
  }

  /** The value of the first query parameter with the given name. */
  function Param(params: seq<(string, ParamValue)>, name: string): Option<ParamValue>
  {
    if params == [] then None
    else if params[0].0 == name then Some(params[0].1)
    else Param(params[1..], name)
  }

  /**
   * The arrivals request goes to `<base>/compschedule/<token>` and carries
   * exactly mode=arrivals, iata=<code unchanged> and day=1.
   */
  lemma ArrivalsRequestShape(token: string, airportCode: string, name: string)
    ensures var req := ArrivalsRequest(NewFlightApi(token), airportCode);
      && req.url == "https://api.flightapi.io/compschedule/" + token
      && req.url[|"https://api.flightapi.io/compschedule/"|..] == token
      && Param(req.params, "mode") == Some(Text("arrivals"))
      && Param(req.params, "iata") == Some(Text(airportCode))
      && Param(req.params, "day") == Some(Int(1))
      && (name != "mode" && name != "iata" && name != "day" ==> Param(req.params, name) == None)
  {
    var req := ArrivalsRequest(NewFlightApi(token), airportCode);
    assert "mode" != "iata" by { assert "mode"[0] != "iata"[0]; }
    assert "mode" != "day" by { assert "mode"[0] != "day"[0]; }
    assert "iata" != "day" by { assert "iata"[0] != "day"[0]; }
    var ps := req.params;
    assert ps[1..] == [("iata", Text(airportCode)), ("day", Int(1))];
    assert ps[1..][1..] == [("day", Int(1))];
    assert ps[1..][1..][1..] == [];
    assert Param(ps[1..][1..], "day") == Some(Int(1));
    assert Param(ps[1..], "day") == Some(Int(1));
    if name != "mode" && name != "iata" && name != "day" {
      assert Param(ps[1..][1..][1..], name) == None;
      assert Param(ps[1..][1..], name) == None;
      assert Param(ps[1..], name) == None;
    }
  }

  // ---------------------------------------------------------------------------
  // Error classification
  // ---------------------------------------------------------------------------

  /** A raised Python exception: its class name and `str(e)`. */
  datatype Raised = Raised(className: string, text: string)

  /**
   * What the HTTP exchange produced: a response (its status, its body text,
   * and the outcome of decoding the body as JSON), or an exception raised
   * before any response (connection failure, timeout, ...).
   */
  datatype Outcome =
    | Response(status: int, text: string, json: Result<Json, Raised>)
    | TransportFailure(cause: Raised)

  /** `FlightAPIError(message, status_code, details)`. */
  datatype FlightApiError = FlightApiError(message: string, statusCode: Option<int>, details: Option<string>)

  /** httpx's `raise_for_status` lets exactly the 2xx statuses through. */
  predicate IsSuccessStatus(status: int)
  {
    200 <= status < 300
  }

  function UnexpectedError(cause: Raised): FlightApiError
  {
    FlightApiError(UnexpectedErrorMessage, None, Some(cause.className + cause.text))
  }

  /** The result of `_make_request`: the decoded document, or the FlightAPI error it raises. */
  function Classify(outcome: Outcome): (r: Result<Json, FlightApiError>)
    ensures r.Success? <==> outcome.Response? && IsSuccessStatus(outcome.status) && outcome.json.Success?
    ensures r.Success? ==> r.value == outcome.json.value
    ensures outcome.Response? && !IsSuccessStatus(outcome.status) ==>
      r == Failure(FlightApiError(HttpErrorMessage, Some(outcome.status), Some(outcome.text)))
    ensures r.Failure? ==> (r.error.statusCode.Some? <==> r.error.message == HttpErrorMessage)
    ensures outcome.TransportFailure? ==>
      r == Failure(FlightApiError(UnexpectedErrorMessage, None, Some(outcome.cause.className + outcome.cause.text)))
    ensures outcome.Response? && IsSuccessStatus(outcome.status) && outcome.json.Failure? ==>
      r == Failure(FlightApiError(UnexpectedErrorMessage, None, Some(outcome.json.error.className + outcome.json.error.text)))
  {
    assert HttpErrorMessage != UnexpectedErrorMessage by { assert HttpErrorMessage[0] != UnexpectedErrorMessage[0]; }
    match outcome
    case TransportFailure(cause) => Failure(UnexpectedError(cause))
    case Response(status, text, json) =>
      if !IsSuccessStatus(status) then
        Failure(FlightApiError(HttpErrorMessage, Some(status), Some(text)))
      else
        match json
        case Success(doc) => Success(doc)
        case Failure(cause) => Failure(UnexpectedError(cause))
  }

  // ---------------------------------------------------------------------------
  // Fetching the origin countries
  // ---------------------------------------------------------------------------

  /** `FlightAPI.get_today_arrivals_countries`: request, classify, extract. */
  function ArrivalsCountries(api: FlightApi, airportCode: string, upstream: Request -> Outcome)
    : (r: Result<seq<Json>, FlightApiError>)
    ensures match Classify(upstream(ArrivalsRequest(api, airportCode)))
      case Success(doc) => r == Success(Origins(doc))
      case Failure(e) => r == Failure(e)
  {
    match Classify(upstream(ArrivalsRequest(api, airportCode)))
    case Failure(e) => Failure(e)
    case Success(doc) =>
      ExtractIsOrigins(doc);
      Success(Find(doc, ArrivalsPath))
  }

  /**
   * `CachedFlightAPI`: a FlightAPI that remembers, per airport code, the
   * countries it fetched. A failed fetch stores nothing; an entry is never
   * removed or replaced.
   */
  class CachedFlightApi {
    const api: FlightApi
    var cache: map<string, seq<Json>>

    /** Every airport code sent upstream, in order. */
    ghost var fetched: seq<string>
    /** The airport codes whose fetch succeeded, in order. */
    ghost var stored: seq<string>

    /** Each cached code was stored by exactly one successful fetch. */
    ghost predicate Valid()
      reads this
    {
      && (forall code :: code in cache <==> code in stored)
      && (forall i, j :: 0 <= i < j < |stored| ==> stored[i] != stored[j])
      && (forall code :: code in stored ==> code in fetched)
    }

    constructor (token: string)
      ensures Valid()
      ensures api == NewFlightApi(token) && cache == map[]
      ensures fetched == [] && stored == []
    {
      api := NewFlightApi(token);
      cache := map[];
      fetched := [];
      stored := [];
    }

    /** `get_today_arrivals_countries` with the memo table in front of the fetch. */
    method GetTodayArrivalsCountries(airportCode: string, upstream: Request -> Outcome)
      returns (r: Result<seq<Json>, FlightApiError>)
      requires Valid()
      modifies this
      ensures Valid()
      ensures airportCode in old(cache) ==>
        && r == Success(old(cache)[airportCode])
        && cache == old(cache) && fetched == old(fetched) && stored == old(stored)
      ensures airportCode !in old(cache) ==>
        && r == ArrivalsCountries(api, airportCode, upstream)
        && fetched == old(fetched) + [airportCode]
      ensures airportCode !in old(cache) && r.Success? ==>
        cache == old(cache)[airportCode := r.value] && stored == old(stored) + [airportCode]
      ensures airportCode !in old(cache) && r.Failure? ==>
        cache == old(cache) && stored == old(stored)
      ensures forall code :: code in old(cache) ==> code in cache && cache[code] == old(cache)[code]
    {
      if airportCode in cache {
        return Success(cache[airportCode]);
      }
      fetched := fetched + [airportCode];
      r := ArrivalsCountries(api, airportCode, upstream);
      if r.Success? {
        cache := cache[airportCode := r.value];
        stored := stored + [airportCode];
      }
    }
  }

  /**
   * Two lookups of one code in a row: after a success the second is served
   * from the cache without going upstream; after a failure it goes upstream
   * again.
   */
  method LookupTwice(client: CachedFlightApi, airportCode: string, first: Request -> Outcome, second: Request -> Outcome)
    returns (r1: Result<seq<Json>, FlightApiError>, r2: Result<seq<Json>, FlightApiError>)
    requires client.Valid()
    modifies client
    ensures client.Valid()
    ensures r1.Success? ==> r2 == r1 && |client.fetched| == |old(client.fetched)| + (if airportCode in old(client.cache) then 0 else 1)
    ensures airportCode !in old(client.cache) && r1.Failure? ==>
      r2 == ArrivalsCountries(client.api, airportCode, second) && client.fetched == old(client.fetched) + [airportCode, airportCode]
  {
    r1 := client.GetTodayArrivalsCountries(airportCode, first);
    r2 := client.GetTodayArrivalsCountries(airportCode, second);
  }
}
