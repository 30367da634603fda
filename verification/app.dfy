/**
 * The web application's own logic: the airport-code check on the submitted
 * form, and `get_flights`, which ranks the origin countries of today's
 * arrivals.
 */
module App {
  import opened Wrappers
  import opened JsonPath
  import opened Ranking
  import opened FlightsApi

  const InvalidAirportCodeMessage: string := "airport code must contain exactly 3 Latin letters"

  /** The character class `[A-Za-z]`. */
  predicate IsLatinLetter(c: char)
  {
    'A' <= c <= 'Z' || 'a' <= c <= 'z'
  }

  /** Whether the whole of `s` matches `[A-Za-z]{n}`. */
  function MatchesLetters(s: string, n: nat): (b: bool)
    ensures b <==> |s| == n && forall i :: 0 <= i < |s| ==> IsLatinLetter(s[i])
  {
    if n == 0 then s == []
    else s != [] && IsLatinLetter(s[0]) && MatchesLetters(s[1..], n - 1)
  }

  /** `FlightRequest.validate_airport_code`: exactly three Latin letters, returned as given. */
  function ValidateAirportCode(value: string): (r: Result<string, string>)
    ensures r.Success? <==> |value| == 3 && forall i :: 0 <= i < |value| ==> IsLatinLetter(value[i])
    ensures r.Success? ==> r.value == value
    ensures r.Failure? ==> r.error == InvalidAirportCodeMessage
  {
    if MatchesLetters(value, 3) then Success(value) else Failure(InvalidAirportCodeMessage)
  }

  /** Lower case is accepted and kept; digits, other lengths and a trailing newline are rejected. */
  lemma ValidateExamples()
    ensures ValidateAirportCode("DEL") == Success("DEL")
    ensures ValidateAirportCode("del") == Success("del")
    ensures ValidateAirportCode("De1").Failure?
    ensures ValidateAirportCode("DELH").Failure?
    ensures ValidateAirportCode("DEL\n").Failure?
    ensures ValidateAirportCode("").Failure?
  {
    assert !IsLatinLetter("De1"[2]);
  }

  /** `get_flights`: the origin countries of today's arrivals, counted and ranked. */
  function GetFlights(api: FlightApi, airportCode: string, upstream: Request -> Outcome)
    : (r: Result<seq<Entry<Json>>, FlightApiError>)
    ensures r.Failure? <==> ArrivalsCountries(api, airportCode, upstream).Failure?
    ensures r.Failure? ==> r.error == ArrivalsCountries(api, airportCode, upstream).error
    ensures r.Success? ==> IsRankingOf(ArrivalsCountries(api, airportCode, upstream).value, r.value)
    ensures r.Success? ==> Total(r.value) == |ArrivalsCountries(api, airportCode, upstream).value|
  {
    match ArrivalsCountries(api, airportCode, upstream)
    case Failure(e) => Failure(e)
    case Success(countries) =>
      RankIsRanking(countries);
      Success(Rank(countries))
  }

  lemma FixtureCountries(token: string, upstream: Request -> Outcome)
    requires upstream(ArrivalsRequest(NewFlightApi(token), "DEL")) == Response(200, "", Success(Fixture()))
    ensures ArrivalsCountries(NewFlightApi(token), "DEL", upstream) == Success([Str("India"), Str("Thailand")])
  {
    FixtureExtraction();
    ExtractIsOrigins(Fixture());
  }

  /**
   * With the provider answering 200 and a schedule of two arrivals, from
   * India and then from Thailand, the page shows India first, each once.
   */
  lemma GetFlightsEndToEnd(token: string, upstream: Request -> Outcome)
    requires upstream(ArrivalsRequest(NewFlightApi(token), "DEL")) == Response(200, "", Success(Fixture()))
    ensures GetFlights(NewFlightApi(token), "DEL", upstream) == Success([(Str("India"), 1), (Str("Thailand"), 1)])
  {
    FixtureCountries(token, upstream);
    assert Str("India") != Str("Thailand") by { assert "India"[0] != "Thailand"[0]; }
    RankTwoDistinct(Str("India"), Str("Thailand"));
  }
}
