/** The weather panel of js/views.js: the emoji for a WMO weather code as
    Open-Meteo reports it (WMO code table 4677), the 30-minute reuse of the
    cached reading, and the city name guessed from the time zone. The clock,
    the connection state and the time zone are parameters. */
module Weather {
  import opened JsValues
  import opened JsonText
  import opened Offline

  const CacheKey := "weather_cache"
  /** 30 minutes in milliseconds. */
  const MaxAge := 30 * 60 * 1000
  const OfflineNoDataText := "Offline: brak danych o pogodzie."
  const SomewhereNear := "Twoja okolica"

  const Sun := "\U{2600}\U{FE0F}"
  const Moon := "\U{1F319}"
  const SunBehindCloud := "\U{1F324}\U{FE0F}"
  const PartCloud := "\U{26C5}"
  const Cloud := "\U{2601}\U{FE0F}"
  const FogIcon := "\U{1F32B}\U{FE0F}"
  const SunRain := "\U{1F326}\U{FE0F}"
  const RainCloud := "\U{1F327}\U{FE0F}"
  const SnowCloud := "\U{1F328}\U{FE0F}"
  const Storm := "\U{26C8}\U{FE0F}"
  const Thermometer := "\U{1F321}\U{FE0F}"

  // ---------------------------------------------------------------------
  // weatherIcon

  /** `code === n` */
  predicate Is(code: Option<Json>, n: int) {
    code == Some(JNum(IntNum(n)))
  }

  /** `weatherIcon(code, isDay)` */
  function WeatherIcon(code: Option<Json>, isDay: bool): string {
    if Is(code, 0) then (if isDay then Sun else Moon)
    else if Is(code, 1) then (if isDay then SunBehindCloud else Moon)
    else if Is(code, 2) then PartCloud
    else if Is(code, 3) then Cloud
    else if Is(code, 45) || Is(code, 48) then FogIcon
    else if Is(code, 51) || Is(code, 53) || Is(code, 55) then SunRain
    else if Is(code, 56) || Is(code, 57) then RainCloud
    else if Is(code, 61) || Is(code, 63) || Is(code, 65) then RainCloud
    else if Is(code, 66) || Is(code, 67) then RainCloud
    else if Is(code, 71) || Is(code, 73) || Is(code, 75) then SnowCloud
    else if Is(code, 77) then SnowCloud
    else if Is(code, 80) || Is(code, 81) || Is(code, 82) then RainCloud
    else if Is(code, 85) || Is(code, 86) then SnowCloud
    else if Is(code, 95) then Storm
    else if Is(code, 96) || Is(code, 99) then Storm
    else Thermometer
  }

  /** The weather conditions Open-Meteo reports, after WMO code table 4677. */
  datatype Sky =
    | Clear | MainlyClear | PartlyCloudy | Overcast | Fog
    | Drizzle | FreezingDrizzle | Rain | FreezingRain | Snowfall | SnowGrains
    | RainShowers | SnowShowers | Thunderstorm | ThunderstormHail

  /** The codes Open-Meteo documents and what they stand for. */
  function Condition(n: int): Option<Sky> {
    if n == 0 then Some(Clear)
    else if n == 1 then Some(MainlyClear)
    else if n == 2 then Some(PartlyCloudy)
    else if n == 3 then Some(Overcast)
    else if n in {45, 48} then Some(Fog)
    else if n in {51, 53, 55} then Some(Drizzle)
    else if n in {56, 57} then Some(FreezingDrizzle)
    else if n in {61, 63, 65} then Some(Rain)
    else if n in {66, 67} then Some(FreezingRain)
    else if n in {71, 73, 75} then Some(Snowfall)
    else if n == 77 then Some(SnowGrains)
    else if n in {80, 81, 82} then Some(RainShowers)
    else if n in {85, 86} then Some(SnowShowers)
    else if n == 95 then Some(Thunderstorm)
    else if n in {96, 99} then Some(ThunderstormHail)
    else None
  }

  /** The picture for a condition: sun or moon for a clear sky, a cloud
      with rain for any liquid precipitation but drizzle, with snow for
      any snow. */
  function SkyIcon(sky: Sky, isDay: bool): string {
    match sky
    case Clear => if isDay then Sun else Moon
    case MainlyClear => if isDay then SunBehindCloud else Moon
    case PartlyCloudy => PartCloud
    case Overcast => Cloud
    case Fog => FogIcon
    case Drizzle => SunRain
    case FreezingDrizzle | Rain | FreezingRain | RainShowers => RainCloud
    case Snowfall | SnowGrains | SnowShowers => SnowCloud
    case Thunderstorm | ThunderstormHail => Storm
  }

  /** The integer a code is, if it is one. */
  function CodeNumber(code: Option<Json>): (r: Option<int>)
    ensures r.Some? ==> Is(code, r.value)
    ensures r.None? ==> forall n :: !Is(code, n)
  {
    if code.Some? && code.value.JNum? && code.value.n.scale == 0 then Some(code.value.n.mant) else None
  }

  /** The icon chain follows the code table: a documented code gets the
      picture of its condition, anything else (an undocumented number, a
      fraction, a missing code) the thermometer. */
  lemma IconFollowsTable(code: Option<Json>, isDay: bool)
    ensures WeatherIcon(code, isDay)
            == match CodeNumber(code)
               case None => Thermometer
               case Some(n) => if Condition(n).Some? then SkyIcon(Condition(n).value, isDay) else Thermometer
  {
    if CodeNumber(code).Some? {
      var n := CodeNumber(code).value;
      if n < 45 {
        IconOfLowCode(code, n, isDay);
      } else if n < 70 {
        IconOfMiddleCode(code, n, isDay);
      } else {
        IconOfHighCode(code, n, isDay);
      }
    }
  }

  lemma IconOfLowCode(code: Option<Json>, n: int, isDay: bool)
    requires CodeNumber(code) == Some(n) && n < 45
    ensures WeatherIcon(code, isDay) == if Condition(n).Some? then SkyIcon(Condition(n).value, isDay) else Thermometer
  {
    assert forall m :: Is(code, m) <==> m == n;
  }

  lemma IconOfMiddleCode(code: Option<Json>, n: int, isDay: bool)
    requires CodeNumber(code) == Some(n) && 45 <= n < 70
    ensures WeatherIcon(code, isDay) == if Condition(n).Some? then SkyIcon(Condition(n).value, isDay) else Thermometer
  {
    assert forall m :: Is(code, m) <==> m == n;
  }

  lemma IconOfHighCode(code: Option<Json>, n: int, isDay: bool)
    requires CodeNumber(code) == Some(n) && 70 <= n
    ensures WeatherIcon(code, isDay) == if Condition(n).Some? then SkyIcon(Condition(n).value, isDay) else Thermometer
  {
    assert forall m :: Is(code, m) <==> m == n;
  }

  /** The thermometer shows exactly when the code is not in the table. */
  lemma FallbackIffUndocumented(code: Option<Json>, isDay: bool)
    ensures WeatherIcon(code, isDay) == Thermometer
            <==> CodeNumber(code).None? || Condition(CodeNumber(code).value).None?
  {
    IconFollowsTable(code, isDay);
    if CodeNumber(code).Some? && Condition(CodeNumber(code).value).Some? {
      var sky := Condition(CodeNumber(code).value).value;
      assert SkyIcon(sky, isDay)[0] != Thermometer[0];
    }
  }

  // ---------------------------------------------------------------------
  // The cached reading

  /** `Date.now() - cached.ts` as a number, or `None` for NaN: a missing
      `ts` is NaN, `null` and `false` count as 0 and `true` as 1. */
  function Age(now: int, ts: Option<Json>): (r: Option<real>)
    ensures ts.Some? && ts.value.JNum? ==> r == Some(now as real - ts.value.n.Value())
    ensures ts.None? ==> r.None?
  {
    match ts
    case Some(JNum(n)) => Some(now as real - n.Value())
    case Some(JNull) => Some(now as real)
    case Some(JBool(b)) => Some(now as real - if b then 1.0 else 0.0)
    case _ => None
  }

  /** `cached?.text` is truthy. */
  predicate HasText(cached: Json) {
    Property(cached, "text").Some? && Truthy(Property(cached, "text").value)
  }

  /** `cached?.text && Date.now() - cached.ts < 30 * 60 * 1000` */
  predicate Fresh(cached: Json, now: int) {
    && HasText(cached)
    && var age := Age(now, Property(cached, "ts"));
       age.Some? && age.value < MaxAge as real
  }

  /** What `getWeatherText` does with the cache before asking for a
      position: reuse a fresh reading; offline, reuse any reading with a
      text or report that there is none; otherwise fetch a new one. */
  datatype CacheDecision = UseCached(reading: Json) | OfflineNoData | FetchFresh

  function CacheStep(items: map<string, string>, now: int, online: bool): (d: CacheDecision)
    ensures d.UseCached? ==> d.reading == CacheGet(items, CacheKey, JNull) && HasText(d.reading)
    ensures d.FetchFresh? <==> online && !Fresh(CacheGet(items, CacheKey, JNull), now)
    ensures d.OfflineNoData? <==> !online && !HasText(CacheGet(items, CacheKey, JNull))
  {
    var cached := CacheGet(items, CacheKey, JNull);
    if Fresh(cached, now) then UseCached(cached)
    else if !online then (if HasText(cached) then UseCached(cached) else OfflineNoData)
    else FetchFresh
  }

  /** The record `getWeatherText` caches after fetching: `{ ts, text, icon,
      code, isDay }`, where an `undefined` code is left out by
      `JSON.stringify`. */
  function Reading(ts: int, text: string, icon: string, code: Option<Json>, isDay: bool): (r: Json)
    ensures r.JObj? && |r.members| >= 4 && r.members[..2] == [Member("ts", JNum(IntNum(ts))), Member("text", JStr(text))]
  {
    JObj([Member("ts", JNum(IntNum(ts))), Member("text", JStr(text)), Member("icon", JStr(icon))]
         + (if code.Some? then [Member("code", code.value)] else [])
         + [Member("isDay", JBool(isDay))])
  }

  lemma ReadingFields(ts: int, text: string, icon: string, code: Option<Json>, isDay: bool)
    ensures Property(Reading(ts, text, icon, code, isDay), "text") == Some(JStr(text))
    ensures Property(Reading(ts, text, icon, code, isDay), "ts") == Some(JNum(IntNum(ts)))
  {
    var ms := Reading(ts, text, icon, code, isDay).members;
    LastValueFrom(ms, 1, "text");
    LastValueFrom(ms, 0, "ts");
  }

  /** The member at `i` is the last one named `key`. */
  lemma {:induction false} LastValueFrom(ms: seq<Member>, i: nat, key: string)
    requires i < |ms| && ms[i].key == key
    requires forall j :: i < j < |ms| ==> ms[j].key != key
    ensures LastValue(ms, key) == Some(ms[i].value)
    decreases |ms|
  {
    if i < |ms| - 1 {
      LastValueFrom(ms[..|ms| - 1], i, key);
    }
  }

  /** A reading with a text, cached at `ts`, is reused without asking for
      a position for the next 30 minutes, online or not. */
  lemma ReusedWithinHalfHour(items: map<string, string>, ts: int, text: string, icon: string,
                             code: Option<Json>, isDay: bool, now: int, online: bool)
    requires text != "" && now - ts < MaxAge
    ensures CacheStep(items[CacheKey := StoredText(Val(Reading(ts, text, icon, code, isDay)))], now, online)
            == UseCached(Reading(ts, text, icon, code, isDay))
  {
    var r := Reading(ts, text, icon, code, isDay);
    CacheGetAfterSet(items, CacheKey, r, JNull);
    ReadingFields(ts, text, icon, code, isDay);
  }

  /** Offline, a reading with a text is reused however old it is. */
  lemma OfflineReusesAnyReading(items: map<string, string>, ts: int, text: string, icon: string,
                                code: Option<Json>, isDay: bool, now: int)
    requires text != ""
    ensures CacheStep(items[CacheKey := StoredText(Val(Reading(ts, text, icon, code, isDay)))], now, false)
            == UseCached(Reading(ts, text, icon, code, isDay))
  {
    var r := Reading(ts, text, icon, code, isDay);
    CacheGetAfterSet(items, CacheKey, r, JNull);
    ReadingFields(ts, text, icon, code, isDay);
  }

  /** From 30 minutes on, a connected browser fetches a new reading. */
  lemma RefetchedAfterHalfHour(items: map<string, string>, ts: int, text: string, icon: string,
                               code: Option<Json>, isDay: bool, now: int)
    requires now - ts >= MaxAge
    ensures CacheStep(items[CacheKey := StoredText(Val(Reading(ts, text, icon, code, isDay)))], now, true)
            == FetchFresh
  {
    var r := Reading(ts, text, icon, code, isDay);
    CacheGetAfterSet(items, CacheKey, r, JNull);
    ReadingFields(ts, text, icon, code, isDay);
  }

  /** The refresh button stores `null`: online a new reading is fetched,
      offline there is nothing to show. */
  lemma RefreshClearsReading(items: map<string, string>, now: int, online: bool)
    ensures CacheStep(items[CacheKey := StoredText(Val(JNull))], now, online)
            == if online then FetchFresh else OfflineNoData
  {
    CacheGetAfterSet(items, CacheKey, JNull, JNull);
  }

  // ---------------------------------------------------------------------
  // guessCityFromTimezone

  /** `s.split("/").pop()`: the text after the last slash, or all of it. */
  function LastSegment(s: string): (r: string)
    ensures '/' !in r && |r| <= |s|
  {
    if s == [] then []
    else if s[|s| - 1] == '/' then []
    else LastSegment(s[..|s| - 1]) + [s[|s| - 1]]
  }

  /** The last segment is the end of the text, and a slash stands right
      before it unless it is the whole text. */
  lemma {:induction false} LastSegmentSuffix(s: string)
    ensures var r := LastSegment(s);
      r == s[|s| - |r|..] && (|r| < |s| ==> s[|s| - |r| - 1] == '/')
  {
    if s != [] && s[|s| - 1] != '/' {
      var p := s[..|s| - 1];
      var q := LastSegment(p);
      LastSegmentSuffix(p);
      assert s == p + [s[|s| - 1]];
      assert q + [s[|s| - 1]] == s[|s| - |q| - 1..];
      assert |q| < |p| ==> s[|s| - |q| - 2] == p[|p| - |q| - 1];
    }
  }

  /** `guessCityFromTimezone()` for the time zone `Intl` reports (`None`
      when it reports none or fails): the last part of the zone name with
      underscores as spaces, or "Twoja okolica" when that is empty. */
  function GuessCityFromTimezone(tz: Option<string>): (city: string)
    ensures city != ""
    ensures city == SomewhereNear || ('/' !in city && '_' !in city)
    ensures tz.None? ==> city == SomewhereNear
  {
    var zone := if tz.Some? then tz.value else "";
    var name := ReplaceChar(LastSegment(zone), '_', " ");
    if name == "" then SomewhereNear else name
  }

  /** A zone name whose last part is non-empty names the city: the part
      after the last slash, with each underscore a space. */
  lemma CityFromZone(area: string, city: string)
    requires city != [] && '/' !in city
    ensures GuessCityFromTimezone(Some(area + "/" + city)) == ReplaceChar(city, '_', " ")
  {
    var zone := area + "/" + city;
    SuffixWithoutSlash(zone, city);
    ReplaceCharNonEmpty(city, '_', " ");
  }

  /** The last segment of `zone` is a suffix that follows a slash. */
  lemma SuffixWithoutSlash(zone: string, city: string)
    requires '/' !in city && |city| < |zone| && zone[|zone| - |city|..] == city && zone[|zone| - |city| - 1] == '/'
    ensures LastSegment(zone) == city
  {
    var r := LastSegment(zone);
    LastSegmentSuffix(zone);
    if |r| > |city| {
      assert false;
    } else if |r| < |city| {
      assert false;
    }
  }

  lemma {:induction false} ReplaceCharNonEmpty(s: string, c: char, r: string)
    requires s != [] && r != []
    ensures ReplaceChar(s, c, r) != []
  {
  }
}
