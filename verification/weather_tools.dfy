/** `WeatherToolsService`: the weather tools the chat model may call. Each uppercases the
    airport code, delegates to the weather service and turns whatever happens into a reply:
    a flat map of the record's fields, or an `{"error": ...}` payload. No tool lets an
    exception escape. */
module WeatherTools {
  import opened Wrappers
  import opened Jvm
  import opened Text
  import opened Weather
  import opened WeatherService

  /** What a tool hands back to the model: a map that is serialised as a JSON object, or
      the text of an error payload (built by interpolation, without any escaping). */
  datatype Reply = Fields(fields: map<string, Value>) | ErrorPayload(text: string)

  /** A tool's reply together with the weather-client calls made on the way. */
  datatype ToolCall = ToolCall(reply: Reply, calls: seq<Call>)

  const ErrorOpening: string := "{\"error\": \""
  const ErrorClosing: string := "\"}"

  /** The payload `{"error": "<message>"}`. */
  function ErrorText(message: string): string {
    ErrorOpening + message + ErrorClosing
  }

  /** Reads the message back out of an error payload. */
  function ErrorMessageOf(text: string): Option<string> {
    var lo := |ErrorOpening|;
    var hi := |text| - |ErrorClosing|;
    if lo <= hi && text[..lo] == ErrorOpening && text[hi..] == ErrorClosing then Some(text[lo..hi])
    else None
  }

  /** Every error payload carries its message verbatim, whatever characters it contains. */
  lemma ErrorPayloadRoundTrip(message: string)
    ensures ErrorMessageOf(ErrorText(message)) == Some(message)
  {
    var t := ErrorText(message);
    assert t[..|ErrorOpening|] == ErrorOpening;
    assert t[|t| - |ErrorClosing|..] == ErrorClosing;
    assert t[|ErrorOpening|..|t| - |ErrorClosing|] == message;
  }

  // ---------------------------------------------------------------------------
  // Flattening records
  // ---------------------------------------------------------------------------

  /** `value?.let { put(key, it) }`. */
  function PutPresent(fields: map<string, Value>, key: string, value: Option<Value>): map<string, Value> {
    if value.Some? then fields[key := value.value] else fields
  }

  /** The `?.let { put(...) }` lines of a `buildMap` block, in order. */
  function PutAllPresent(fields: map<string, Value>, entries: seq<(string, Option<Value>)>): map<string, Value>
    decreases |entries|
  {
    if |entries| == 0 then fields
    else PutAllPresent(PutPresent(fields, entries[0].0, entries[0].1), entries[1..])
  }

  /** An optional field is flattened to `key` exactly when it is present, with its value. */
  predicate Carries(fields: map<string, Value>, key: string, value: Option<Value>) {
    (key in fields <==> value.Some?) && (value.Some? ==> fields[key] == value.value)
  }

  predicate DistinctKeys(entries: seq<(string, Option<Value>)>) {
    forall i, j :: 0 <= i < j < |entries| ==> entries[i].0 != entries[j].0
  }

  function KeysOf(entries: seq<(string, Option<Value>)>): set<string> {
    set i | 0 <= i < |entries| :: entries[i].0
  }

  /** Putting optional entries under fresh, distinct keys keeps the fields already there and
      adds each entry exactly when it is present. */
  lemma {:induction false} PutAllPresentCarries(fields: map<string, Value>, entries: seq<(string, Option<Value>)>)
    requires DistinctKeys(entries)
    requires forall i :: 0 <= i < |entries| ==> entries[i].0 !in fields
    ensures var r := PutAllPresent(fields, entries);
      && fields.Keys <= r.Keys <= fields.Keys + KeysOf(entries)
      && (forall k :: k in fields ==> r[k] == fields[k])
      && (forall i :: 0 <= i < |entries| ==> Carries(r, entries[i].0, entries[i].1))
    decreases |entries|
  {
    if |entries| > 0 {
      var next := PutPresent(fields, entries[0].0, entries[0].1);
      var rest := entries[1..];
      assert forall i :: 0 <= i < |rest| ==> rest[i] == entries[i + 1];
      PutAllPresentCarries(next, rest);
      assert KeysOf(entries) == {entries[0].0} + KeysOf(rest) by {
        forall k | k in KeysOf(entries) ensures k in {entries[0].0} + KeysOf(rest) {
          var i :| 0 <= i < |entries| && entries[i].0 == k;
          if i > 0 { assert rest[i - 1].0 == k; }
        }
      }
    }
  }

  function TextValue(s: string): Value { Text(s) }
  function WholeOf(i: Option<int>): Option<Value> {
    match i
    case Some(n) => Some(Whole(n))
    case None => None
  }
  function RealValue(d: Double): Value { Real(d) }
  function CloudsValue(c: seq<SkyCondition>): Value { Clouds(c) }
  function PeriodsValue(p: seq<ForecastPeriod>): Value { Periods(p) }

  const Unknown: string := "Unknown"
  const NotAvailable: string := "Not available"

  const MetarRequiredKeys: set<string> := {"airport_code", "observation_time", "raw_metar"}

  /** The optional METAR fields, under their keys, in the order they are put. */
  function MetarOptionalEntries(m: Metar): (e: seq<(string, Option<Value>)>)
    ensures DistinctKeys(e)
    ensures forall i :: 0 <= i < |e| ==> e[i].0 !in MetarRequiredKeys
  {
    [ ("temperature_celsius", m.temperatureCelsius.Map(RealValue)),
      ("dewpoint_celsius", m.dewpointCelsius.Map(RealValue)),
      ("wind_speed_knots", WholeOf(m.windSpeedKnots)),
      ("wind_direction_degrees", WholeOf(m.windDirectionDegrees)),
      ("visibility_miles", m.visibilityMiles.Map(TextValue)),
      ("altimeter_inches", m.altimeterInches.Map(RealValue)),
      ("flight_category", m.flightCategory.Map(TextValue)),
      ("sky_conditions", m.skyConditions.Map(CloudsValue)) ]
  }

  /** `formatMetarResponse`, before serialisation: three fields always (with defaults for
      missing ones), the others exactly when present. */
  function FormatMetar(m: Metar): (r: map<string, Value>)
    ensures MetarRequiredKeys <= r.Keys
    ensures r.Keys <= MetarRequiredKeys + KeysOf(MetarOptionalEntries(m))
    ensures r["airport_code"] == Text(m.airportCode.GetOr(Unknown))
    ensures r["observation_time"] == Text(m.observationTime.GetOr(Unknown))
    ensures r["raw_metar"] == Text(m.rawMetar.GetOr(NotAvailable))
    ensures Carries(r, "temperature_celsius", m.temperatureCelsius.Map(RealValue))
    ensures Carries(r, "dewpoint_celsius", m.dewpointCelsius.Map(RealValue))
    ensures Carries(r, "wind_speed_knots", WholeOf(m.windSpeedKnots))
    ensures Carries(r, "wind_direction_degrees", WholeOf(m.windDirectionDegrees))
    ensures Carries(r, "visibility_miles", m.visibilityMiles.Map(TextValue))
    ensures Carries(r, "altimeter_inches", m.altimeterInches.Map(RealValue))
    ensures Carries(r, "flight_category", m.flightCategory.Map(TextValue))
    ensures Carries(r, "sky_conditions", m.skyConditions.Map(CloudsValue))
  {
    var required := map[
      "airport_code" := Text(m.airportCode.GetOr(Unknown)),
      "observation_time" := Text(m.observationTime.GetOr(Unknown)),
      "raw_metar" := Text(m.rawMetar.GetOr(NotAvailable))
    ];
    var entries := MetarOptionalEntries(m);
    PutAllPresentCarries(required, entries);
    var r := PutAllPresent(required, entries);
    MetarEntriesCarried(m, r);
    r
  }

  /** The optional entries, read off one by one. */
  lemma MetarEntriesCarried(m: Metar, r: map<string, Value>)
    requires forall i :: 0 <= i < |MetarOptionalEntries(m)| ==>
      Carries(r, MetarOptionalEntries(m)[i].0, MetarOptionalEntries(m)[i].1)
    ensures Carries(r, "temperature_celsius", m.temperatureCelsius.Map(RealValue))
    ensures Carries(r, "dewpoint_celsius", m.dewpointCelsius.Map(RealValue))
    ensures Carries(r, "wind_speed_knots", WholeOf(m.windSpeedKnots))
    ensures Carries(r, "wind_direction_degrees", WholeOf(m.windDirectionDegrees))
    ensures Carries(r, "visibility_miles", m.visibilityMiles.Map(TextValue))
    ensures Carries(r, "altimeter_inches", m.altimeterInches.Map(RealValue))
    ensures Carries(r, "flight_category", m.flightCategory.Map(TextValue))
    ensures Carries(r, "sky_conditions", m.skyConditions.Map(CloudsValue))
  {
    var e := MetarOptionalEntries(m);
    assert Carries(r, e[0].0, e[0].1);
    assert Carries(r, e[1].0, e[1].1);
    assert Carries(r, e[2].0, e[2].1);
    assert Carries(r, e[3].0, e[3].1);
    assert Carries(r, e[4].0, e[4].1);
    assert Carries(r, e[5].0, e[5].1);
    assert Carries(r, e[6].0, e[6].1);
    assert Carries(r, e[7].0, e[7].1);
  }

  const TafRequiredKeys: set<string> := {"airport_code", "issue_time", "valid_from", "valid_to", "raw_taf"}

  /** `formatTafResponse`, before serialisation. A missing validity time defaults to the
      text `"Unknown"`, a present one is the number itself. */
  function FormatTaf(t: Taf): (r: map<string, Value>)
    ensures TafRequiredKeys <= r.Keys
    ensures r.Keys <= TafRequiredKeys + {"forecast_periods"}
    ensures r["airport_code"] == Text(t.airportCode.GetOr(Unknown))
    ensures r["issue_time"] == Text(t.issueTime.GetOr(Unknown))
    ensures r["valid_from"] == WholeOf(t.validFrom).GetOr(Text(Unknown))
    ensures r["valid_to"] == WholeOf(t.validTo).GetOr(Text(Unknown))
    ensures r["raw_taf"] == Text(t.rawTaf.GetOr(NotAvailable))
    ensures Carries(r, "forecast_periods", t.forecastPeriods.Map(PeriodsValue))
  {
    var required := map[
      "airport_code" := Text(t.airportCode.GetOr(Unknown)),
      "issue_time" := Text(t.issueTime.GetOr(Unknown)),
      "valid_from" := WholeOf(t.validFrom).GetOr(Text(Unknown)),
      "valid_to" := WholeOf(t.validTo).GetOr(Text(Unknown)),
      "raw_taf" := Text(t.rawTaf.GetOr(NotAvailable))
    ];
    var entries := [("forecast_periods", t.forecastPeriods.Map(PeriodsValue))];
    PutAllPresentCarries(required, entries);
    var r := PutAllPresent(required, entries);
    assert Carries(r, entries[0].0, entries[0].1);
    assert KeysOf(entries) == {"forecast_periods"};
    r
  }

  // ---------------------------------------------------------------------------
  // Reading a flattened record back
  // ---------------------------------------------------------------------------

  function TextAt(f: map<string, Value>, key: string): Option<string> {
    if key in f && f[key].Text? then Some(f[key].text) else None
  }

  function Int32At(f: map<string, Value>, key: string): Option<Int32> {
    if key in f && f[key].Whole? && -0x8000_0000 <= f[key].whole < 0x8000_0000 then Some(f[key].whole as Int32) else None
  }

  function Int64At(f: map<string, Value>, key: string): Option<Int64> {
    if key in f && f[key].Whole? && -0x8000_0000_0000_0000 <= f[key].whole < 0x8000_0000_0000_0000
    then Some(f[key].whole as Int64) else None
  }

  function RealAt(f: map<string, Value>, key: string): Option<Double> {
    if key in f && f[key].Real? then Some(f[key].number) else None
  }

  /** The METAR a flattened map describes. */
  function ReadMetar(f: map<string, Value>): Metar {
    Metar(
      TextAt(f, "airport_code"), TextAt(f, "observation_time"), TextAt(f, "raw_metar"),
      RealAt(f, "temperature_celsius"), RealAt(f, "dewpoint_celsius"),
      Int32At(f, "wind_speed_knots"), Int32At(f, "wind_direction_degrees"),
      TextAt(f, "visibility_miles"), RealAt(f, "altimeter_inches"), TextAt(f, "flight_category"),
      if "sky_conditions" in f && f["sky_conditions"].Clouds? then Some(f["sky_conditions"].clouds) else None)
  }

  /** The TAF a flattened map describes. */
  function ReadTaf(f: map<string, Value>): Taf {
    Taf(
      TextAt(f, "airport_code"), TextAt(f, "issue_time"),
      Int64At(f, "valid_from"), Int64At(f, "valid_to"), TextAt(f, "raw_taf"),
      if "forecast_periods" in f && f["forecast_periods"].Periods? then Some(f["forecast_periods"].periods) else None)
  }

  /** A METAR whose missing always-shown fields are filled with the defaults. */
  function MetarWithDefaults(m: Metar): Metar {
    m.(airportCode := Some(m.airportCode.GetOr(Unknown)),
       observationTime := Some(m.observationTime.GetOr(Unknown)),
       rawMetar := Some(m.rawMetar.GetOr(NotAvailable)))
  }

  /** A TAF whose missing always-shown text fields are filled with the defaults. */
  function TafWithDefaults(t: Taf): Taf {
    t.(airportCode := Some(t.airportCode.GetOr(Unknown)),
       issueTime := Some(t.issueTime.GetOr(Unknown)),
       rawTaf := Some(t.rawTaf.GetOr(NotAvailable)))
  }

  /** A 32-bit number flattened as a whole number reads back as itself. */
  lemma Int32Carried(f: map<string, Value>, key: string, value: Option<Int32>)
    requires Carries(f, key, WholeOf(value))
    ensures Int32At(f, key) == value
  {
  }

  /** A 64-bit number shown as a whole number, or as the text default, reads back as itself. */
  lemma Int64Kept(f: map<string, Value>, key: string, value: Option<Int64>)
    requires key in f && f[key] == WholeOf(value).GetOr(Text(Unknown))
    ensures Int64At(f, key) == value
  {
  }

  /** Flattening loses nothing but the absence of the three always-shown fields. */
  lemma FormatMetarRoundTrip(m: Metar)
    ensures ReadMetar(FormatMetar(m)) == MetarWithDefaults(m)
  {
    var f := FormatMetar(m);
    assert TextAt(f, "airport_code") == Some(m.airportCode.GetOr(Unknown));
    assert TextAt(f, "observation_time") == Some(m.observationTime.GetOr(Unknown));
    assert TextAt(f, "raw_metar") == Some(m.rawMetar.GetOr(NotAvailable));
    assert RealAt(f, "temperature_celsius") == m.temperatureCelsius;
    assert RealAt(f, "dewpoint_celsius") == m.dewpointCelsius;
    Int32Carried(f, "wind_speed_knots", m.windSpeedKnots);
    Int32Carried(f, "wind_direction_degrees", m.windDirectionDegrees);
    assert TextAt(f, "visibility_miles") == m.visibilityMiles;
    assert RealAt(f, "altimeter_inches") == m.altimeterInches;
    assert TextAt(f, "flight_category") == m.flightCategory;
  }

  /** Flattening a TAF loses nothing but the absence of its three defaulted text fields: a
      missing validity time stays recognisable because its default is text, not a number. */
  lemma FormatTafRoundTrip(t: Taf)
    ensures ReadTaf(FormatTaf(t)) == TafWithDefaults(t)
  {
    var f := FormatTaf(t);
    assert TextAt(f, "airport_code") == Some(t.airportCode.GetOr(Unknown));
    assert TextAt(f, "issue_time") == Some(t.issueTime.GetOr(Unknown));
    Int64Kept(f, "valid_from", t.validFrom);
    Int64Kept(f, "valid_to", t.validTo);
    assert TextAt(f, "raw_taf") == Some(t.rawTaf.GetOr(NotAvailable));
  }

  // ---------------------------------------------------------------------------
  // The tools
  // ---------------------------------------------------------------------------

  /** The reply for an exception caught by a tool: its message in an error payload. */
  function CaughtReply(e: Exception): (r: Reply)
    ensures r.ErrorPayload? && ErrorMessageOf(r.text) == Some(e.MessageText())
  {
    ErrorPayloadRoundTrip(e.MessageText());
    ErrorPayload(ErrorText(e.MessageText()))
  }

  const NoMetarPrefix: string := "No METAR data available for airport code "
  const NoTafPrefix: string := "No TAF data available for airport code "

  /** `get_metar`: the uppercased code goes to the service; an absent record is reported
      with the code as the caller wrote it. */
  function GetMetarTool(src: Source, airportCode: string, hours: Int32): (c: ToolCall)
    ensures var t := GetMetar(src, AsciiUpper(airportCode), hours);
      && c.calls == t.calls
      && (t.result.Err? ==> c.reply == CaughtReply(t.result.error))
      && (t.result == Ok(None) ==>
            c.reply == ErrorPayload(ErrorText(NoMetarPrefix + airportCode)))
      && (c.reply.Fields? <==> t.result.Ok? && t.result.value.Some?)
      && (c.reply.Fields? ==> c.reply.fields == FormatMetar(t.result.value.value))
  {
    var t := GetMetar(src, AsciiUpper(airportCode), hours);
    ToolCall(MetarReply(t.result, airportCode), t.calls)
  }

  /** The reply `get_metar` builds from what the service returned. */
  function MetarReply(result: Result<Option<Metar>, Exception>, airportCode: string): (r: Reply)
    ensures result.Err? ==> r == CaughtReply(result.error)
    ensures result == Ok(None) ==> r == ErrorPayload(ErrorText(NoMetarPrefix + airportCode))
    ensures r.Fields? <==> result.Ok? && result.value.Some?
    ensures r.Fields? ==> r.fields == FormatMetar(result.value.value)
  {
    match result
    case Err(e) => CaughtReply(e)
    case Ok(None) => ErrorPayload(ErrorText(NoMetarPrefix + airportCode))
    case Ok(Some(m)) => Fields(FormatMetar(m))
  }

  /** `get_metar` with `hours` left out: one hour of history. */
  function GetMetarToolDefault(src: Source, airportCode: string): (c: ToolCall)
    ensures IsIcaoCode(AsciiUpper(airportCode)) ==> c.calls == [MetarCall(AsciiUpper(airportCode), 1)]
  {
    GetMetarTool(src, airportCode, 1)
  }

  /** `get_taf`. */
  function GetTafTool(src: Source, airportCode: string): (c: ToolCall)
    ensures var t := GetTaf(src, AsciiUpper(airportCode));
      && c.calls == t.calls
      && (t.result.Err? ==> c.reply == CaughtReply(t.result.error))
      && (t.result == Ok(None) ==>
            c.reply == ErrorPayload(ErrorText(NoTafPrefix + airportCode)))
      && (c.reply.Fields? <==> t.result.Ok? && t.result.value.Some?)
      && (c.reply.Fields? ==> c.reply.fields == FormatTaf(t.result.value.value))
  {
    var t := GetTaf(src, AsciiUpper(airportCode));
    ToolCall(TafReply(t.result, airportCode), t.calls)
  }

  /** The reply `get_taf` builds from what the service returned. */
  function TafReply(result: Result<Option<Taf>, Exception>, airportCode: string): (r: Reply)
    ensures result.Err? ==> r == CaughtReply(result.error)
    ensures result == Ok(None) ==> r == ErrorPayload(ErrorText(NoTafPrefix + airportCode))
    ensures r.Fields? <==> result.Ok? && result.value.Some?
    ensures r.Fields? ==> r.fields == FormatTaf(result.value.value)
  {
    match result
    case Err(e) => CaughtReply(e)
    case Ok(None) => ErrorPayload(ErrorText(NoTafPrefix + airportCode))
    case Ok(Some(x)) => Fields(FormatTaf(x))
  }

  /** `get_airport_weather_summary`: the service's summary map, or the caught exception. */
  function GetAirportWeatherSummaryTool(src: Source, airportCode: string): (c: ToolCall)
    ensures var t := GetWeatherSummary(src, AsciiUpper(airportCode));
      && c.calls == t.calls
      && (t.result.Err? ==> c.reply == CaughtReply(t.result.error))
      && (t.result.Ok? ==> c.reply == Fields(t.result.value))
  {
    var t := GetWeatherSummary(src, AsciiUpper(airportCode));
    var reply := match t.result
      case Err(e) => CaughtReply(e)
      case Ok(summary) => Fields(summary);
    ToolCall(reply, t.calls)
  }

  /** A code the tools accept is exactly four ASCII letters of either case. */
  predicate IsToolAcceptedCode(airportCode: string) {
    |airportCode| == 4 && forall i :: 0 <= i < |airportCode| ==> IsAsciiLetter(airportCode[i])
  }

  /** Uppercasing first makes the code check case-insensitive, and nothing more. */
  lemma UppercasedCodeCheck(airportCode: string)
    ensures IsIcaoCode(AsciiUpper(airportCode)) <==> IsToolAcceptedCode(airportCode)
  {
    var u := AsciiUpper(airportCode);
    forall i | 0 <= i < |airportCode| ensures IsAsciiUpperLetter(u[i]) <==> IsAsciiLetter(airportCode[i]) {
      UpperCharIsLetter(airportCode[i]);
    }
  }

  /** A code the tools refuse reaches no client: every tool answers with the code error. */
  lemma RefusedCodeMakesNoCall(src: Source, airportCode: string, hours: Int32)
    requires !IsToolAcceptedCode(airportCode)
    ensures var e := ErrorPayload(ErrorText(AirportCodeMessage(AsciiUpper(airportCode))));
      && GetMetarTool(src, airportCode, hours) == ToolCall(e, [])
      && GetTafTool(src, airportCode) == ToolCall(e, [])
      && GetAirportWeatherSummaryTool(src, airportCode) == ToolCall(e, [])
  {
    UppercasedCodeCheck(airportCode);
  }

  /** `get_metar("kjfk")` asks the client for `"KJFK"`. */
  lemma LowercaseCodeIsUppercased(src: Source)
    ensures GetMetarToolDefault(src, "kjfk").calls == [MetarCall("KJFK", 1)]
  {
    assert AsciiUpper("kjfk") == "KJFK";
  }

  /** `get_metar("JFK")` is refused without a call. */
  lemma ThreeLetterCodeRefused(src: Source)
    ensures GetMetarToolDefault(src, "JFK")
      == ToolCall(ErrorPayload(ErrorText(AirportCodeMessage("JFK"))), [])
  {
    assert AsciiUpper("JFK") == "JFK";
    RefusedCodeMakesNoCall(src, "JFK", 1);
  }
}
