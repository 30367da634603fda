# Origin countries of today's arrivals — a Dafny model

The application answers one question: which countries did today's arrivals at
an airport come from, and how many from each? It checks the airport code the
user submits. It asks the flight-schedule provider for the day's arrivals. It
walks the returned JSON document along a fixed JSONPath down to each arrival's
origin-country name. It counts the names and lists them by frequency. A
subclass of the client also remembers each airport's country list in memory.

This project models that core in Dafny and proves what each piece promises:

- `wrappers.dfy` (`Wrappers`): `Option` and `Result`. They stand for Python's
  `None` and for raised exceptions.
- `json_path.dfy` (`JsonPath`): a JSON value as a datatype. A path is a list of
  steps, `Field(name)` or `Wildcard`, as in the child segments with name and
  wildcard selectors of sections 2.3.1 and 2.3.2 of RFC 9535. `Eval` maps a
  working list of nodes through each step in order.
- `ranking.dfy` (`Ranking`): `Counter(values).most_common()`. `Tally` counts
  the values one at a time into an insertion-ordered tally. `MostCommon` is a
  stable sort of that tally by count, largest first. `IsRankingOf` says what a
  ranking is without saying how to compute it. `RankCharacterization` proves
  that `Rank` is the only sequence that meets it.
- `flights_api.dfy` (`FlightsApi`): the `FlightAPI` client. It covers the
  arrivals path, the request URL and query parameters, and the classification
  of the HTTP outcome into a `FlightAPIError`. `ArrivalsCountries` is the
  fetch-and-extract operation. `CachedFlightApi` is a class whose `cache` map
  is updated in place.
- `app.dfy` (`App`): the airport-code validator and `get_flights`.

The HTTP exchange is the parameter `upstream: Request -> Outcome`. An `Outcome`
is either a response (its status, its body text, and the result of decoding
the body as JSON) or an exception raised before any response.

## Model

| member | source | states |
|---|---|---|
| `App.MatchesLetters` | src/main.py:45 | the whole string matches `[A-Za-z]{n}` iff its length is n and every character is an ASCII Latin letter |
| `App.ValidateAirportCode` | src/main.py:44-47 | accepted iff exactly 3 characters, each in A–Z or a–z; an accepted code is returned unchanged (no case change); a rejected one fails with "airport code must contain exactly 3 Latin letters" |
| `App.ValidateExamples` | src/main.py:44-47 | "DEL" and "del" are accepted as given; "De1", "DELH", "DEL\n" and "" are rejected |
| `App.GetFlights` | src/main.py:64-67 | fails exactly when the fetch fails, with the same error; otherwise returns a ranking of the fetched countries whose counts add up to the number of countries |
| `App.FixtureCountries` | src/flights/api.py:35-50 | a 200 response carrying the two-record schedule yields the countries India then Thailand |
| `App.GetFlightsEndToEnd` | src/main.py:64-67 | for that schedule, `get_flights("DEL")` is `[("India", 1), ("Thailand", 1)]` |
| `Ranking.Rank` | src/main.py:66-67 | `Counter(xs).most_common()`; its meaning is stated by `Ranking.RankIsRanking` and `Ranking.RankCharacterization` |
| `Ranking.MostCommon` | src/main.py:67 | `most_common()` over a tally; see `Ranking.MostCommonPermutes`, `Ranking.MostCommonNonIncreasing` and `Ranking.MostCommonRanked` |
| `Ranking.FirstIndex` | src/main.py:66 | the first position at which a value occurs: it holds the value and no earlier position does |
| `Ranking.Bump` | src/main.py:66 | one `counter[x] += 1`: an existing key is incremented in place, a new key is appended with count 1, other entries are unchanged, keys stay distinct, and the total grows by one |
| `Ranking.Tally` | src/main.py:66 | `Counter(xs)` has distinct keys |
| `Ranking.TallyIsTallyOf` | src/main.py:66 | `Counter(xs)` holds every value of `xs` exactly once with its number of occurrences, in order of first occurrence, and the counts add up to `len(xs)` |
| `Ranking.InsertPermutes` | src/main.py:67 | inserting into the sorted list adds exactly that entry and its count |
| `Ranking.MostCommonPermutes` | src/main.py:67 | `most_common()` is a permutation of the tally and keeps the total |
| `Ranking.MostCommonNonIncreasing` | src/main.py:67 | the counts in the output of `most_common()` never increase from left to right |
| `Ranking.MostCommonOfSorted` | src/main.py:67 | a list already ordered by non-increasing count comes out unchanged |
| `Ranking.MostCommonIdempotent` | src/main.py:67 | sorting the output of `most_common()` again gives the same list |
| `Ranking.InsertRanked` | src/main.py:67 | inserting an entry seen earlier than all others keeps the list ordered by count, then first occurrence |
| `Ranking.MostCommonRanked` | src/main.py:67 | the sort is stable: a tally in first-seen order comes out ordered by count descending, ties in first-seen order |
| `Ranking.RankIsRanking` | src/main.py:66-67 | `Counter(xs).most_common()` is a ranking of `xs`: each entry is a value of `xs` with its count, every value has an entry, counts do not increase, ties keep first-seen order, and the counts add up to `len(xs)` |
| `Ranking.RankedUnique` | src/main.py:66-67 | two lists strictly ordered by (count descending, first occurrence ascending) with the same entries are equal |
| `Ranking.RankCharacterization` | src/main.py:66-67 | a list is a ranking of `xs` if and only if it equals `Counter(xs).most_common()` |
| `Ranking.RankDistinct` | src/main.py:66-67 | every distinct value appears exactly once in the output |
| `Ranking.RankCountsPositive` | src/main.py:66-67 | every count is at least 1, and the counts add up to the number of values |
| `Ranking.RankEmpty` | src/main.py:66-67 | the output is empty iff the input is empty; no values is not an error |
| `Ranking.RankTwoDistinct` | src/main.py:66-67 | two different values, once each, keep their input order |
| `Ranking.RankTwiceThenOnce` | src/main.py:66-67 | a value seen twice comes before a different value seen once after it, with counts 2 and 1 |
| `Ranking.RankOnceThenTwice` | src/main.py:66-67 | a value seen twice comes before a different value seen once before it: count outranks first occurrence |
| `Ranking.RankTieExample` | src/main.py:66-67 | `["India", "Thailand"]` gives `[("India", 1), ("Thailand", 1)]` |
| `Ranking.RankCountExample` | src/main.py:66-67 | `["India", "India", "Thailand"]` gives `[("India", 2), ("Thailand", 1)]` |
| `Ranking.RankReorderExample` | src/main.py:66-67 | `["Thailand", "India", "India"]` gives `[("India", 2), ("Thailand", 1)]` |
| `JsonPath.Eval` | src/flights/api.py:49 | `jsonpath_expr.find` over a working list of nodes, one step at a time; see `JsonPath.EvalAppend`, `JsonPath.EvalIsFindEach` and `FlightsApi.ExtractIsOrigins` |
| `JsonPath.Find` | src/flights/api.py:49 | `jsonpath_expr.find(doc)`: evaluation from the document alone; see `JsonPath.FindWildcard`, `JsonPath.FindField` and `JsonPath.FindFields` |
| `JsonPath.Fields` | src/flights/api.py:6 | a chain of names becomes that many name selectors, in order |
| `JsonPath.SelectAllAppend` | src/flights/api.py:49-50 | one step over a joined working list is the step over each part, joined |
| `JsonPath.EvalAppend` | src/flights/api.py:49-50 | path evaluation distributes over the working list, keeping order |
| `JsonPath.EvalEmpty` | src/flights/api.py:49-50 | an empty working list yields no matches, whatever follows |
| `JsonPath.EvalIsFindEach` | src/flights/api.py:49-50 | evaluating over a list is matching below each node in turn, concatenated |
| `JsonPath.FindWildcard` | src/flights/api.py:6 | a leading `[*]` on an array yields the matches of the rest of the path in each element, in element order; on anything else nothing (that branch is this model's choice, see `[*]` under "Left out") |
| `JsonPath.FindField` | src/flights/api.py:6 | a leading `.name` yields the matches below that member, or nothing when the node lacks it |
| `JsonPath.FindFields` | src/flights/api.py:6 | a chain of names then a rest: the rest matched below the member the chain reaches, or nothing if a member is missing |
| `JsonPath.FindEachAppend` | src/flights/api.py:49-50 | matching below a joined list of nodes is matching below each part, joined |
| `JsonPath.LookupNest` | src/flights/api.py:6 | following a chain of names through nested one-member objects reaches the leaf |
| `FlightsApi.ArrivalsPath` | src/flights/api.py:6 | the path as its steps: `[*]`, the five names down to a record's arrivals, `[*]`, the six names down to a country name; what it selects is stated by `FlightsApi.ExtractIsOrigins` |
| `FlightsApi.FlightsMatch` | src/flights/api.py:6 | the country-name part of the path, over a list of arrivals, yields their names in arrival order |
| `FlightsApi.RecordMatch` | src/flights/api.py:6 | the path below `$[*]`, on one record, yields that record's arrivals' names in order |
| `FlightsApi.RecordsMatch` | src/flights/api.py:6 | the path below `$[*]`, over the records, yields their names record by record |
| `FlightsApi.ExtractIsOrigins` | src/flights/api.py:49-50 | evaluating the arrivals path yields exactly the origin-country names: outer record index first, then arrival index within the record |
| `FlightsApi.RecordsOriginsAppend` | src/flights/api.py:6 | the names of joined record lists are the names of each list, joined |
| `FlightsApi.ExtractAppend` | src/flights/api.py:6 | because the path starts with `$[*]`, extracting from a top-level array is the concatenation of extracting from its parts, in order |
| `FlightsApi.RecordWithoutArrivals` | src/flights/api.py:6 | a record missing a field on the way to its arrivals contributes nothing, and the records around it still contribute theirs; the same for a record whose `data` is not an array, which is this model's choice (see `[*]` under "Left out") |
| `FlightsApi.FlightsOriginsAppend` | src/flights/api.py:6 | the names of joined arrival lists are the names of each list, joined |
| `FlightsApi.FlightWithoutCountry` | src/flights/api.py:6 | in any record whose arrivals are `a + [flight] + b`, an arrival missing a field on the way to its country name contributes nothing, and the arrivals around it still contribute theirs |
| `FlightsApi.ExtractNothing` | src/flights/api.py:49-50 | a document whose records lead to no names yields `[]` rather than an error; so does a document that is not an array, which is this model's choice (see `[*]` under "Left out") |
| `FlightsApi.NoRecordOrigins` | src/flights/api.py:6 | records that each yield no names yield none together |
| `FlightsApi.FixtureRecordOrigins` | tests/test_arrivals_jsonpath.py:14-18 | a record with one arrival yields that arrival's country |
| `FlightsApi.TwoRecordsOrigins` | tests/test_arrivals_jsonpath.py:14-18 | two one-arrival records yield their two countries, first record first |
| `FlightsApi.FixtureExtraction` | tests/test_arrivals_jsonpath.py:14-18 | on a two-record schedule the extraction is `["India", "Thailand"]`, first record first |
| `FlightsApi.NewFlightApi` | src/flights/api.py:26-33 | a client with the provider's base URL and the given token; see `FlightsApi.ArrivalsRequestShape` |
| `FlightsApi.EndpointUrl` | src/flights/api.py:61 | `<base>/<endpoint>/<token>`; see `FlightsApi.ArrivalsRequestShape` |
| `FlightsApi.ArrivalsRequest` | src/flights/api.py:43-48 | the arrivals request; see `FlightsApi.ArrivalsRequestShape` |
| `FlightsApi.ArrivalsRequestShape` | src/flights/api.py:43-48 | the arrivals request goes to `https://api.flightapi.io/compschedule/<token>` and carries exactly mode=arrivals, iata=the code unchanged, and day=1 |
| `FlightsApi.Classify` | src/flights/api.py:61-77 | success iff a 2xx response whose body decodes; a non-2xx response gives ("HTTP error occurred", its status, its body text); any other failure gives ("An unexpected error occurred", no status, class name + message); a status is present iff the message is the HTTP one |
| `FlightsApi.ArrivalsCountries` | src/flights/api.py:35-50 | a failed request propagates its error unchanged; a successful one yields exactly the origin-country names of the document, in document order |
| `FlightsApi.CachedFlightApi.constructor` | src/flights/api.py:85-92 | a fresh client has an empty cache and the provider's base URL and the given token |
| `FlightsApi.CachedFlightApi.GetTodayArrivalsCountries` | src/flights/api.py:94-107 | on a hit, returns the stored list, does not go upstream, and leaves the cache unchanged; on a miss, goes upstream once; a success is stored under exactly that code and returned, and no other key changes; a failure propagates and stores nothing; entries are never removed or replaced, and each key is stored by exactly one successful fetch, for calls that do not overlap (see "Left out") |
| `FlightsApi.LookupTwice` | src/flights/api.py:94-107 | after a successful lookup, a second lookup of the same code returns the same list; after a failed one, the second goes upstream again |

## Left out

- The network exchange is not modelled: httpx, `async`/`await`, the 60-second timeout and the decoding of the body as JSON. All of it is the parameter `upstream`. Its `Outcome` already carries the status, the body text and the decoding result.
- httpx's `raise_for_status` is modelled as letting exactly the 2xx statuses through, as httpx documents it. httpx's own code is not part of this model.
- The encoding of the query parameters into the URL is not modelled. The request keeps them as an ordered list of name–value pairs.
- The jsonpath_ng parser is not part of this model. The path is written as its list of steps, and `FlightsApi.ArrivalsPath`'s comment gives the text it stands for.
- `[*]` applied to a value that is not an array: the model drops that value. jsonpath_ng may instead treat an object or a scalar as a one-element list. jsonpath_ng's code is not part of this model. The extraction lemmas are exact for documents whose wildcard positions hold arrays or are absent.
- `JsonPath.FindWildcard`, `FlightsApi.ExtractNothing`, `FlightsApi.RecordWithoutArrivals`: where a `[*]` position holds something other than an array, these state the model's choice (no matches). They do not state the source's result. If jsonpath_ng wraps an object as a one-element list, a top-level object, or an object at `data`, yields that object's names in the source.
- JSON numbers are integers in the model. No number is compared or computed on the extraction path.
- `Ranking.Rank` compares values with structural equality. Python's `Counter` also treats `True` as `1` and `False` as `0`. It raises `TypeError` for object or array leaves, which cannot be hashed. Neither case is modelled.
- The `@cache(expire=60 * 60)` decorator on `get_flights` and the `InMemoryBackend` come from fastapi_cache. Their time-to-live and key building are that library's, and they are not modelled. `CachedFlightAPI` entries never expire, and the model follows that code rather than a time-to-live design.
- The airport code is not upper-cased anywhere in the code: not by the validator, not in the request, not in the cache key. The model keeps it as given.
- FastAPI routes, Jinja templates, the exception handlers' message formatting and logging, settings loading and `uvicorn.run` are web and process glue, and are not modelled.
- `FlightsApi.CachedFlightApi.GetTodayArrivalsCountries`: each call is modelled as one atomic step. The source method is `async`. It can be suspended at the `await` of the fetch, between the miss test and the store. Two overlapping calls for one missing code then both go upstream, and the later store replaces the earlier entry. "Never replaced" and "one successful fetch per key" hold only for calls that do not overlap. Neither this class nor the `@cache` decorator has single-flight protection, which would share one fetch among concurrent callers of a key.
- `FlightsApi.CachedFlightApi.GetTodayArrivalsCountries`: on a hit the source returns the cached list object itself. A caller that mutates that list therefore mutates the cache. The model returns values, so it does not capture this aliasing.
- tests/data/arrivals.json is not part of this model. A two-record schedule is built in Dafny instead (`FlightsApi.Fixture`).
