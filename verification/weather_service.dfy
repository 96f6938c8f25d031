/** `AviationWeatherService`: validates an airport code (and, for METAR, the number of
    hours) before it lets the client call the weather API. Each operation returns its
    result together with the trace of client calls it made, so that "no call happens"
    is a statement about that trace. */
module WeatherService {
  import opened Wrappers
  import opened Jvm
  import opened Text
  import opened Weather

  /** A call into the weather client. */
  datatype Call = MetarCall(code: string, hours: Int32) | TafCall(code: string)

  /** The result of an operation (its value or the exception it throws) and the client
      calls it made, in order. */
  datatype Traced<T> = Traced(result: Result<T, Exception>, calls: seq<Call>)

  /** The pattern `^[A-Z]{4}$`, matched against the whole code. */
  predicate IsIcaoCode(code: string) {
    |code| == 4 && forall i :: 0 <= i < |code| ==> IsAsciiUpperLetter(code[i])
  }

  /** The accepted history window, in hours. */
  predicate IsValidHours(hours: int) {
    1 <= hours <= 24
  }

  function AirportCodeMessage(code: string): string {
    "Airport code must be 4 uppercase letters (ICAO format). Provided: " + code
  }

  function HoursMessage(hours: Int32): string {
    "Hours must be between 1 and 24. Provided: " + IntToString(hours)
  }

  /** `validateAirportCode`: the exception it throws, if any. */
  function ValidateAirportCode(code: string): (e: Option<Exception>)
    ensures e.None? <==> |code| == 4 && forall i :: 0 <= i < 4 ==> 'A' <= code[i] <= 'Z'
    ensures e.Some? ==> e.value == InvalidAirportCode(AirportCodeMessage(code)) && e.value.IsIllegalArgument()
  {
    if !IsIcaoCode(code) then Some(InvalidAirportCode(AirportCodeMessage(code))) else None
  }

  /** `validateHours`: the exception it throws, if any. */
  function ValidateHours(hours: Int32): (e: Option<Exception>)
    ensures e.None? <==> 1 <= hours <= 24
    ensures e.Some? ==> e.value == IllegalArgument(HoursMessage(hours)) && e.value.IsIllegalArgument()
  {
    if hours < 1 || hours > 24 then Some(IllegalArgument(HoursMessage(hours))) else None
  }

  /** `getMetar`: the code is checked first, then the hours, and only then is the client
      asked, with both arguments unchanged; its answer is returned unchanged. */
  function GetMetar(src: Source, code: string, hours: Int32): (t: Traced<Option<Metar>>)
    ensures !IsIcaoCode(code) ==> t == Traced(Err(InvalidAirportCode(AirportCodeMessage(code))), [])
    ensures IsIcaoCode(code) && !IsValidHours(hours) ==> t == Traced(Err(IllegalArgument(HoursMessage(hours))), [])
    ensures IsIcaoCode(code) && IsValidHours(hours) ==>
      t.calls == [MetarCall(code, hours)] && t.result == FetchMetar(src, code, hours)
    ensures t.calls == [] <==> t.result.Err? && t.result.error.IsIllegalArgument()
  {
    match ValidateAirportCode(code)
    case Some(e) => Traced(Err(e), [])
    case None =>
      match ValidateHours(hours)
      case Some(e) => Traced(Err(e), [])
      case None => Traced(FetchMetar(src, code, hours), [MetarCall(code, hours)])
  }

  /** `getTaf`: only the code is checked. */
  function GetTaf(src: Source, code: string): (t: Traced<Option<Taf>>)
    ensures !IsIcaoCode(code) ==> t == Traced(Err(InvalidAirportCode(AirportCodeMessage(code))), [])
    ensures IsIcaoCode(code) ==> t.calls == [TafCall(code)] && t.result == FetchTaf(src, code)
    ensures t.calls == [] <==> t.result.Err? && t.result.error.IsIllegalArgument()
  {
    match ValidateAirportCode(code)
    case Some(e) => Traced(Err(e), [])
    case None => Traced(FetchTaf(src, code), [TafCall(code)])
  }

  const AirportCodeKey: string := "airport_code"
  const CurrentWeatherKey: string := "current_weather"
  const ForecastKey: string := "forecast"

  /** `getWeatherSummary`'s map: the code and both records, `null` where a record is absent. */
  function Summary(code: string, metar: Option<Metar>, taf: Option<Taf>): (m: map<string, Value>)
    ensures m.Keys == {AirportCodeKey, CurrentWeatherKey, ForecastKey}
    ensures m[AirportCodeKey] == Text(code)
    ensures m[CurrentWeatherKey] == Null <==> metar.None?
    ensures metar.Some? ==> m[CurrentWeatherKey] == MetarObject(metar.value)
    ensures m[ForecastKey] == Null <==> taf.None?
    ensures taf.Some? ==> m[ForecastKey] == TafObject(taf.value)
  {
    map[
      AirportCodeKey := Text(code),
      CurrentWeatherKey := metar.Map(m => MetarObject(m)).GetOr(Null),
      ForecastKey := taf.Map(t => TafObject(t)).GetOr(Null)
    ]
  }

  /** `getWeatherSummary`: the code is checked, then METAR is fetched for the last hour and
      TAF after it; a client exception stops the operation where it occurs. */
  function GetWeatherSummary(src: Source, code: string): (t: Traced<map<string, Value>>)
    ensures !IsIcaoCode(code) ==> t == Traced(Err(InvalidAirportCode(AirportCodeMessage(code))), [])
    ensures IsIcaoCode(code) && FetchMetar(src, code, 1).Err? ==>
      t == Traced(Err(FetchMetar(src, code, 1).error), [MetarCall(code, 1)])
    ensures IsIcaoCode(code) && FetchMetar(src, code, 1).Ok? ==>
      t.calls == [MetarCall(code, 1), TafCall(code)] && (t.result.Ok? <==> FetchTaf(src, code).Ok?)
    ensures t.result.Ok? ==> FetchMetar(src, code, 1).Ok? && FetchTaf(src, code).Ok?
    ensures t.result.Ok? ==>
      t.result.value == Summary(code, FetchMetar(src, code, 1).value, FetchTaf(src, code).value)
    ensures t.result.Err? && |t.calls| == 2 ==> t.result.error == FetchTaf(src, code).error
  {
    match ValidateAirportCode(code)
    case Some(e) => Traced(Err(e), [])
    case None =>
      match FetchMetar(src, code, 1)
      case Err(e) => Traced(Err(e), [MetarCall(code, 1)])
      case Ok(metar) =>
        match FetchTaf(src, code)
        case Err(e) => Traced(Err(e), [MetarCall(code, 1), TafCall(code)])
        case Ok(taf) => Traced(Ok(Summary(code, metar, taf)), [MetarCall(code, 1), TafCall(code)])
  }

  /** When both arguments are bad it is the airport-code error that is raised, and it is an
      `IllegalArgumentException` like the hours error. */
  lemma CodeCheckedBeforeHours(src: Source, code: string, hours: Int32)
    requires !IsIcaoCode(code) && !IsValidHours(hours)
    ensures GetMetar(src, code, hours).result == Err(InvalidAirportCode(AirportCodeMessage(code)))
    ensures GetMetar(src, code, hours).result.error.IsIllegalArgument()
    ensures ValidateHours(hours).value.IsIllegalArgument()
  {
  }

  /** A rejected request never reaches the client, whichever operation it was made to. */
  lemma RejectionMakesNoCall(src: Source, code: string, hours: Int32)
    requires !IsIcaoCode(code)
    ensures GetMetar(src, code, hours).calls == []
    ensures GetTaf(src, code).calls == []
    ensures GetWeatherSummary(src, code).calls == []
  {
  }

  /** Every number of hours from 1 to 24 is passed to the client as it is. */
  lemma HoursPassedThrough(src: Source, code: string, hours: Int32)
    requires IsIcaoCode(code)
    ensures GetMetar(src, code, hours).calls == (if 1 <= hours <= 24 then [MetarCall(code, hours)] else [])
  {
  }
}
