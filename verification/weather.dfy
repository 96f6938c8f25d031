/** The weather records of the aviation weather API (`MetarResponse`, `TafResponse` and
    their parts) and the client that fetches them. Every field is nullable: a field the
    API omits is `None`, never zero or the empty string. */
module Weather {
  import opened Wrappers
  import opened Jvm

  /** One cloud layer: `cover` and `base`. */
  datatype SkyCondition = SkyCondition(coverage: Option<string>, altitudeFeet: Option<Int32>)

  /** A METAR observation, with the API's JSON names in the comments. */
  datatype Metar = Metar(
    airportCode: Option<string>,             // icaoId
    observationTime: Option<string>,         // reportTime
    rawMetar: Option<string>,                // rawOb
    temperatureCelsius: Option<Double>,      // temp
    dewpointCelsius: Option<Double>,         // dewp
    windSpeedKnots: Option<Int32>,           // wspd
    windDirectionDegrees: Option<Int32>,     // wdir
    visibilityMiles: Option<string>,         // visib
    altimeterInches: Option<Double>,         // altim
    flightCategory: Option<string>,          // fltCat
    skyConditions: Option<seq<SkyCondition>> // clouds
  )

  /** One period of a TAF forecast. */
  datatype ForecastPeriod = ForecastPeriod(
    timeFrom: Option<Int64>,
    timeTo: Option<Int64>,
    windSpeedKnots: Option<Int32>,
    windDirectionDegrees: Option<Int32>,
    visibilityMiles: Option<string>,
    weather: Option<string>,                 // wxString
    skyConditions: Option<seq<SkyCondition>>
  )

  /** A TAF forecast. */
  datatype Taf = Taf(
    airportCode: Option<string>,             // icaoId
    issueTime: Option<string>,
    validFrom: Option<Int64>,                // validTimeFrom
    validTo: Option<Int64>,                  // validTimeTo
    rawTaf: Option<string>,                  // rawTAF
    forecastPeriods: Option<seq<ForecastPeriod>> // fcsts
  )

  /** A value of the maps the service and the tools build (`Map<String, Any?>`). */
  datatype Value =
    | Null
    | Text(text: string)
    | Whole(whole: int)
    | Real(number: Double)
    | Clouds(clouds: seq<SkyCondition>)
    | Periods(periods: seq<ForecastPeriod>)
    | MetarObject(metar: Metar)
    | TafObject(taf: Taf)

  /** What one request to the weather API gives back: the first record of the response
      array, no record (a null body or an empty array), or a transport failure (the
      `RestClientException` of a timeout, an error status or an undecodable payload). */
  datatype Fetch<T> = Record(record: T) | NoRecord | TransportFailure

  /** The weather API, as an oracle: the METAR endpoint takes a code and a number of hours,
      the TAF endpoint a code. */
  datatype Source = Source(metar: (string, Int32) -> Fetch<Metar>, taf: string -> Fetch<Taf>)

  /** The client's handling of one API answer: the record or `null`, and a transport
      failure rethrown as `WeatherDataNotFoundException` naming the product and the code. */
  function ClientResult<T>(answer: Fetch<T>, product: string, code: string): (r: Result<Option<T>, Exception>)
    ensures r.Ok? <==> !answer.TransportFailure?
    ensures r.Ok? ==> (r.value.Some? <==> answer.Record?)
    ensures answer.Record? ==> r == Ok(Some(answer.record))
    ensures r.Err? ==> r.error == WeatherDataNotFound("Could not fetch " + product + " for " + code)
  {
    match answer
    case Record(x) => Ok(Some(x))
    case NoRecord => Ok(None)
    case TransportFailure => Err(WeatherDataNotFound("Could not fetch " + product + " for " + code))
  }

  /** `AviationWeatherClient.fetchMetar`. */
  function FetchMetar(src: Source, code: string, hours: Int32): Result<Option<Metar>, Exception> {
    ClientResult(src.metar(code, hours), "METAR", code)
  }

  /** `AviationWeatherClient.fetchTaf`. */
  function FetchTaf(src: Source, code: string): Result<Option<Taf>, Exception> {
    ClientResult(src.taf(code), "TAF", code)
  }
}
