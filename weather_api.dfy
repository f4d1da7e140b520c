/**
 * The OpenWeatherMap client of src/weather_api.c: a forecast request whose
 * parsed reply may chain into a map-tile request, both over TLS through
 * one 16384-byte buffer that is the ciphertext staging area and the
 * plaintext accumulator; a substring scanner that fills up to sixteen
 * three-hour forecast slots; a map parser that keeps the PNG body; and the
 * icon-code to glyph table.
 */
module WeatherApi {
  import opened Bytes
  import opened Transport
  import opened TextScan

  /** g_response_buffer is char[16384]. */
  const RESPONSE_SIZE: nat := 16384
  /** g_request_buffer is char[1024]. */
  const REQUEST_SIZE: nat := 1024
  /** mbedtls_ssl_read is given sizeof(decrypt_buf) - 1 bytes of room. */
  const DECRYPT_MAX: nat := 2047
  /** MAX_WEATHER_FORECASTS */
  const MAX_FORECASTS: nat := 16
  /** MAX_WEATHER_CITIES */
  const MAX_CITIES: nat := 10
  /** city_name, description and g_api_key are char[64]. */
  const NAME_MAX: nat := 63
  /** An icon code is copied as three characters. */
  const ICON_LEN: nat := 3
  /** error_message is char[128]. */
  const ERROR_MAX: nat := 127
  /** WEATHER_MAP_IMAGE_MAX_SIZE */
  const MAP_MAX: nat := 65536
  /** temp, feels_like and humidity are read only from a key starting this close to the "dt" key. */
  const NUMBER_WINDOW: nat := 500
  /** description and icon are read only from a key starting this close to the "dt" key. */
  const TEXT_WINDOW: nat := 600
  /** After an entry the scan resumes this far past its "dt" key. */
  const ENTRY_STRIDE: nat := 100
  /** The first half of the PNG signature: 0x89 'P' 'N' 'G'. */
  const PNG_MAGIC: seq<byte> := [0x89, 80, 78, 71]

  /** "cod":"404" */
  const COD_404: seq<byte> := [34, 99, 111, 100, 34, 58, 34, 52, 48, 52, 34]
  /** "cod":401 */
  const COD_401: seq<byte> := [34, 99, 111, 100, 34, 58, 52, 48, 49]
  /** "message":" */
  const MESSAGE_KEY: seq<byte> := [34, 109, 101, 115, 115, 97, 103, 101, 34, 58, 34]
  /** "coord":{ */
  const COORD_KEY: seq<byte> := [34, 99, 111, 111, 114, 100, 34, 58, 123]
  /** "lat": */
  const LAT_KEY: seq<byte> := [34, 108, 97, 116, 34, 58]
  /** "lon": */
  const LON_KEY: seq<byte> := [34, 108, 111, 110, 34, 58]
  /** "list":[ */
  const LIST_KEY: seq<byte> := [34, 108, 105, 115, 116, 34, 58, 91]
  /** "dt": */
  const DT_KEY: seq<byte> := [34, 100, 116, 34, 58]
  /** "temp": */
  const TEMP_KEY: seq<byte> := [34, 116, 101, 109, 112, 34, 58]
  /** "feels_like": */
  const FEELS_KEY: seq<byte> := [34, 102, 101, 101, 108, 115, 95, 108, 105, 107, 101, 34, 58]
  /** "humidity": */
  const HUMIDITY_KEY: seq<byte> := [34, 104, 117, 109, 105, 100, 105, 116, 121, 34, 58]
  /** "description":" */
  const DESCRIPTION_KEY: seq<byte> := [34, 100, 101, 115, 99, 114, 105, 112, 116, 105, 111, 110, 34, 58, 34]
  /** "icon":" */
  const ICON_KEY: seq<byte> := [34, 105, 99, 111, 110, 34, 58, 34]
  /** Invalid response */
  const INVALID_RESPONSE: seq<byte> := [73, 110, 118, 97, 108, 105, 100, 32, 114, 101, 115, 112, 111, 110, 115, 101]
  /** City not found */
  const CITY_NOT_FOUND: seq<byte> := [67, 105, 116, 121, 32, 110, 111, 116, 32, 102, 111, 117, 110, 100]
  /** Invalid API key */
  const INVALID_API_KEY: seq<byte> := [73, 110, 118, 97, 108, 105, 100, 32, 65, 80, 73, 32, 107, 101, 121]
  /** Invalid forecast data */
  const INVALID_FORECAST: seq<byte> := [73, 110, 118, 97, 108, 105, 100, 32, 102, 111, 114, 101, 99, 97, 115, 116, 32, 100, 97, 116, 97]
  /** Invalid map response */
  const INVALID_MAP: seq<byte> := [73, 110, 118, 97, 108, 105, 100, 32, 109, 97, 112, 32, 114, 101, 115, 112, 111, 110, 115, 101]
  /** Connection failed */
  const CONNECTION_FAILED: seq<byte> := [67, 111, 110, 110, 101, 99, 116, 105, 111, 110, 32, 102, 97, 105, 108, 101, 100]
  /** Out of TCP connections */
  const OUT_OF_CONNECTIONS: seq<byte> := [79, 117, 116, 32, 111, 102, 32, 84, 67, 80, 32, 99, 111, 110, 110, 101, 99, 116, 105, 111, 110, 115]
  /** DNS lookup failed */
  const DNS_FAILED: seq<byte> := [68, 78, 83, 32, 108, 111, 111, 107, 117, 112, 32, 102, 97, 105, 108, 101, 100]
  /** Connection error */
  const CONNECTION_ERROR: seq<byte> := [67, 111, 110, 110, 101, 99, 116, 105, 111, 110, 32, 101, 114, 114, 111, 114]
  /** SSL init failed */
  const SSL_INIT_FAILED: seq<byte> := [83, 83, 76, 32, 105, 110, 105, 116, 32, 102, 97, 105, 108, 101, 100]
  /** TLS handshake failed */
  const HANDSHAKE_FAILED: seq<byte> := [84, 76, 83, 32, 104, 97, 110, 100, 115, 104, 97, 107, 101, 32, 102, 97, 105, 108, 101, 100]
  /** Failed to send request */
  const REQUEST_NOT_SENT: seq<byte> := [70, 97, 105, 108, 101, 100, 32, 116, 111, 32, 115, 101, 110, 100, 32, 114, 101, 113, 117, 101, 115, 116]
  /** Receive error */
  const RECEIVE_ERROR: seq<byte> := [82, 101, 99, 101, 105, 118, 101, 32, 101, 114, 114, 111, 114]
  /** Network error */
  const NETWORK_ERROR: seq<byte> := [78, 101, 116, 119, 111, 114, 107, 32, 101, 114, 114, 111, 114]
  /** api.openweathermap.org */
  const API_HOST: seq<byte> := [97, 112, 105, 46, 111, 112, 101, 110, 119, 101, 97, 116, 104, 101, 114, 109, 97, 112, 46, 111, 114, 103]
  /** tile.openweathermap.org */
  const MAP_HOST: seq<byte> := [116, 105, 108, 101, 46, 111, 112, 101, 110, 119, 101, 97, 116, 104, 101, 114, 109, 97, 112, 46, 111, 114, 103]
  /** GET /data/2.5/forecast?q= */
  const FORECAST_PATH: seq<byte> := [71, 69, 84, 32, 47, 100, 97, 116, 97, 47, 50, 46, 53, 47, 102, 111, 114, 101, 99, 97, 115, 116, 63, 113, 61]
  /** &appid= */
  const APPID_PARAM: seq<byte> := [38, 97, 112, 112, 105, 100, 61]
  /** &units=metric&cnt=16 HTTP/1.1\r\nHost: api.openweathermap.org\r\nConnection: close\r\n\r\n */
  const FORECAST_TAIL: seq<byte> := [38, 117, 110, 105, 116, 115, 61, 109, 101, 116, 114, 105, 99, 38, 99, 110, 116, 61, 49, 54, 32, 72, 84, 84, 80, 47, 49, 46, 49, 13, 10, 72, 111, 115, 116, 58, 32, 97, 112, 105, 46, 111, 112, 101, 110, 119, 101, 97, 116, 104, 101, 114, 109, 97, 112, 46, 111, 114, 103, 13, 10, 67, 111, 110, 110, 101, 99, 116, 105, 111, 110, 58, 32, 99, 108, 111, 115, 101, 13, 10, 13, 10]
  /** GET /map/temp_new/5/ */
  const MAP_PATH: seq<byte> := [71, 69, 84, 32, 47, 109, 97, 112, 47, 116, 101, 109, 112, 95, 110, 101, 119, 47, 53, 47]
  /** .png?appid= */
  const PNG_QUERY: seq<byte> := [46, 112, 110, 103, 63, 97, 112, 112, 105, 100, 61]
  /** (a space) HTTP/1.1\r\nHost: tile.openweathermap.org\r\nConnection: close\r\n\r\n */
  const MAP_TAIL: seq<byte> := [32, 72, 84, 84, 80, 47, 49, 46, 49, 13, 10, 72, 111, 115, 116, 58, 32, 116, 105, 108, 101, 46, 111, 112, 101, 110, 119, 101, 97, 116, 104, 101, 114, 109, 97, 112, 46, 111, 114, 103, 13, 10, 67, 111, 110, 110, 101, 99, 116, 105, 111, 110, 58, 32, 99, 108, 111, 115, 101, 13, 10, 13, 10]

  datatype WeatherState = Idle | FetchingForecast | FetchingMap | Success | Error

  /** weather_request_type_t: which parser the response of a closed connection goes to. */
  datatype RequestKind = ForecastRequest | MapRequest

  /**
   * A float field: 0.0 as zero-initialised, or the value atof reads from the
   * C string `text`. The float itself is not computed.
   */
  datatype Float = Zero | Atof(text: seq<byte>)

  /** weather_forecast_t, each char array as its C string. */
  datatype Forecast = Forecast(timestamp: int, temp: Float, feelsLike: Float, humidity: int,
                               description: seq<byte>, icon: seq<byte>)

  /**
   * weather_data_t: all sixteen forecast slots and the count filled by the
   * last parse; of the map buffer, the first mapSize bytes copied into it.
   */
  datatype WeatherData = WeatherData(state: WeatherState, request: RequestKind, errorMessage: seq<byte>,
                                     cityName: seq<byte>, latitude: Float, longitude: Float,
                                     forecasts: seq<Forecast>, count: nat,
                                     mapImage: seq<byte>, mapSize: nat, mapLoaded: bool)

  /** The shape every weather_data_t the code produces has: every string fits its array. */
  predicate Shaped(d: WeatherData)
  {
    |d.forecasts| == MAX_FORECASTS && d.count <= MAX_FORECASTS
    && |d.errorMessage| <= ERROR_MAX && |d.cityName| <= NAME_MAX && d.mapSize <= MAP_MAX
    && forall i :: 0 <= i < MAX_FORECASTS ==>
         |d.forecasts[i].description| <= NAME_MAX && |d.forecasts[i].icon| <= ICON_LEN
  }

  /** weather_data_t after memset to zero: IDLE, a forecast request, no slot filled, no map. */
  function Zeroed(): (d: WeatherData)
    ensures Shaped(d) && d.state == Idle && d.count == 0 && !d.mapLoaded && d.mapSize == 0
  {
    WeatherData(Idle, ForecastRequest, [], [], Zero, Zero,
                seq(MAX_FORECASTS, _ => Forecast(0, Zero, Zero, 0, [], [])), 0, [], 0, false)
  }

  /** The data after an error path: ERROR with its message, nothing else touched. */
  function Failed(d: WeatherData, message: seq<byte>): (r: WeatherData)
    ensures r.state == Error && r.errorMessage == message
    ensures r == d.(state := r.state, errorMessage := r.errorMessage)
  {
    d.(state := Error, errorMessage := message)
  }

  // ---------------------------------------------------------------------
  // parse_forecast_response
  // ---------------------------------------------------------------------

  /** strstr(from, key), kept only when the match starts fewer than `window` bytes after `from`. */
  function Near(buf: seq<byte>, from: nat, key: seq<byte>, window: nat): (r: Option<nat>)
    requires |key| > 0 && NoNul(key)
    ensures r.Some? ==> from <= r.value < from + window && StartsAt(buf, r.value, key)
    ensures r.Some? <==> StrStr(buf, from, key).Some? && StrStr(buf, from, key).value < from + window
  {
    match StrStr(buf, from, key)
    case None => None
    case Some(q) => if q < from + window then Some(q) else None
  }

  /** A float field of the entry at p: atof of the text after a near key, or the slot's old value. */
  function FloatNear(buf: seq<byte>, p: nat, key: seq<byte>, previous: Float): (v: Float)
    requires |key| > 0 && NoNul(key)
    ensures Near(buf, p, key, NUMBER_WINDOW).None? ==> v == previous
    ensures Near(buf, p, key, NUMBER_WINDOW).Some? ==> v.Atof? && NoNul(v.text)
  {
    match Near(buf, p, key, NUMBER_WINDOW)
    case None => previous
    case Some(q) => Atof(CStrAt(buf, q + |key|))
  }

  /** The humidity of the entry at p: atoi after a near "humidity" key, or the slot's old value. */
  function HumidityNear(buf: seq<byte>, p: nat, previous: int): (h: int)
    ensures Near(buf, p, HUMIDITY_KEY, NUMBER_WINDOW).None? ==> h == previous
    ensures Near(buf, p, HUMIDITY_KEY, NUMBER_WINDOW).Some? ==> LONG_MIN <= h <= LONG_MAX
  {
    match Near(buf, p, HUMIDITY_KEY, NUMBER_WINDOW)
    case None => previous
    case Some(q) => Atol(buf, q + |HUMIDITY_KEY|)
  }

  /**
   * The description of the entry at p: the bytes after a near "description"
   * key up to the next quote, at most 63 of them; the slot's old value when
   * the key is not near or no quote closes the value.
   */
  function DescriptionNear(buf: seq<byte>, p: nat, previous: seq<byte>): (s: seq<byte>)
    ensures s == previous || (|s| <= NAME_MAX && NoNul(s))
    ensures Near(buf, p, DESCRIPTION_KEY, TEXT_WINDOW).None? ==> s == previous
  {
    match Near(buf, p, DESCRIPTION_KEY, TEXT_WINDOW)
    case None => previous
    case Some(q) =>
      (match QuotedField(buf, q + |DESCRIPTION_KEY|, NAME_MAX)
       case None => previous
       case Some(v) => v)
  }

  /** The icon of the entry at p: the (at most) three bytes after a near "icon" key, or the slot's old value. */
  function IconNear(buf: seq<byte>, p: nat, previous: seq<byte>): (s: seq<byte>)
    ensures Near(buf, p, ICON_KEY, TEXT_WINDOW).None? ==> s == previous
    ensures Near(buf, p, ICON_KEY, TEXT_WINDOW).Some? ==>
              |s| <= ICON_LEN && NoNul(s)
              && |s| <= |CStrAt(buf, Near(buf, p, ICON_KEY, TEXT_WINDOW).value + |ICON_KEY|)|
              && s == CStrAt(buf, Near(buf, p, ICON_KEY, TEXT_WINDOW).value + |ICON_KEY|)[..|s|]
  {
    match Near(buf, p, ICON_KEY, TEXT_WINDOW)
    case None => previous
    case Some(q) => CopyN(buf, q + |ICON_KEY|, ICON_LEN)
  }

  /**
   * The slot filled for the entry whose "dt" key is at p: the timestamp is
   * atol after the key, and each other field is read from a near key or
   * keeps the slot's old value.
   */
  function Entry(buf: seq<byte>, p: nat, f: Forecast): (e: Forecast)
    ensures e.timestamp == Atol(buf, p + |DT_KEY|)
    ensures |f.description| <= NAME_MAX ==> |e.description| <= NAME_MAX
    ensures |f.icon| <= ICON_LEN ==> |e.icon| <= ICON_LEN
  {
    Forecast(Atol(buf, p + |DT_KEY|),
             FloatNear(buf, p, TEMP_KEY, f.temp),
             FloatNear(buf, p, FEELS_KEY, f.feelsLike),
             HumidityNear(buf, p, f.humidity),
             DescriptionNear(buf, p, f.description),
             IconNear(buf, p, f.icon))
  }

  /** A description written between quotes after a near key is copied, cut to 63 bytes. */
  lemma DescriptionCopied(buf: seq<byte>, p: nat, f: Forecast, q: nat, v: seq<byte>)
    requires Near(buf, p, DESCRIPTION_KEY, TEXT_WINDOW) == Some(q)
    requires NoNul(v) && forall i :: 0 <= i < |v| ==> v[i] != QUOTE
    requires StartsAt(buf, q + |DESCRIPTION_KEY|, v + [QUOTE])
    ensures Entry(buf, p, f).description == v[..Min(|v|, NAME_MAX)]
  {
    QuotedValue(buf, q + |DESCRIPTION_KEY|, v, NAME_MAX);
  }

  /** Three non-NUL bytes after a near "icon" key are the icon, exactly. */
  lemma IconCopied(buf: seq<byte>, p: nat, f: Forecast, q: nat, v: seq<byte>)
    requires Near(buf, p, ICON_KEY, TEXT_WINDOW) == Some(q)
    requires |v| == ICON_LEN && NoNul(v)
    requires StartsAt(buf, q + |ICON_KEY|, v)
    ensures Entry(buf, p, f).icon == v
  {
    CopyNOfRun(buf, q + |ICON_KEY|, v);
  }

  /** One pass of the forecast loop: stop, or resume 100 bytes past the "dt" key with one more slot filled. */
  datatype ForecastStep = Stop | Next(at: nat, d: WeatherData)

  /** The pass that starts searching at sp with d.count slots filled. */
  function NextForecast(buf: seq<byte>, sp: nat, d: WeatherData): (s: ForecastStep)
    requires Shaped(d) && d.count < MAX_FORECASTS
    ensures s.Next? <==> StrStr(buf, sp, DT_KEY).Some?
    ensures s.Next? ==> sp + ENTRY_STRIDE <= s.at && Shaped(s.d) && s.d.count == d.count + 1
    ensures s.Next? ==> s.d == d.(forecasts := s.d.forecasts, count := s.d.count)
    ensures s.Next? ==> forall i :: 0 <= i < MAX_FORECASTS && i != d.count ==> s.d.forecasts[i] == d.forecasts[i]
    ensures s.Next? ==> var p := StrStr(buf, sp, DT_KEY).value;
              s.at == p + ENTRY_STRIDE && s.d.forecasts[d.count] == Entry(buf, p, d.forecasts[d.count])
  {
    match StrStr(buf, sp, DT_KEY)
    case None => Stop
    case Some(p) =>
      var e := Entry(buf, p, d.forecasts[d.count]);
      Next(p + ENTRY_STRIDE, d.(forecasts := d.forecasts[d.count := e], count := d.count + 1))
  }

  /**
   * The forecast loop from sp: at most sixteen slots, the ones before the
   * starting count and past the final count untouched, nothing but the
   * slots and the count changed.
   */
  function Forecasts(buf: seq<byte>, sp: nat, d: WeatherData): (r: WeatherData)
    requires Shaped(d)
    ensures Shaped(r) && d.count <= r.count <= MAX_FORECASTS
    ensures r == d.(forecasts := r.forecasts, count := r.count)
    ensures forall i :: 0 <= i < MAX_FORECASTS && !(d.count <= i < r.count) ==> r.forecasts[i] == d.forecasts[i]
    decreases MAX_FORECASTS - d.count
  {
    if d.count >= MAX_FORECASTS then d
    else
      var s := NextForecast(buf, sp, d);
      if s.Stop? then d else Forecasts(buf, s.at, s.d)
  }

  /** The "cod":"404" branch: the message value (at most 127 bytes), or "City not found" without a message key. */
  function NotFound(d: WeatherData, buf: seq<byte>, j: nat): (r: WeatherData)
    ensures r.state == Error && r == d.(state := r.state, errorMessage := r.errorMessage)
    ensures |r.errorMessage| <= Max(|d.errorMessage|, ERROR_MAX)
    ensures StrStr(buf, j, MESSAGE_KEY).None? ==> r.errorMessage == CITY_NOT_FOUND
  {
    match StrStr(buf, j, MESSAGE_KEY)
    case None => Failed(d, CITY_NOT_FOUND)
    case Some(k) =>
      (match QuotedField(buf, k + |MESSAGE_KEY|, ERROR_MAX)
       case None => d.(state := Error)
       case Some(v) => Failed(d, v))
  }

  /** The "coord" object: both coordinates are taken (by atof) only when "lat" and "lon" both follow it. */
  function WithCoordinates(d: WeatherData, buf: seq<byte>, j: nat): (r: WeatherData)
    ensures r == d.(latitude := r.latitude, longitude := r.longitude)
    ensures StrStr(buf, j, COORD_KEY).None? ==> r == d
    ensures Shaped(d) ==> Shaped(r.(count := 0))
  {
    match StrStr(buf, j, COORD_KEY)
    case None => d
    case Some(c) =>
      var lat := StrStr(buf, c, LAT_KEY);
      var lon := StrStr(buf, c, LON_KEY);
      if lat.Some? && lon.Some? then
        d.(latitude := Atof(CStrAt(buf, lat.value + |LAT_KEY|)), longitude := Atof(CStrAt(buf, lon.value + |LON_KEY|)))
      else d
  }

  /** How parse_forecast_response returns: early, on an error path, or after the forecast loop. */
  datatype Outcome = Stopped(d: WeatherData) | Listed(d: WeatherData)

  /**
   * The part of parse_forecast_response after the error codes: the
   * coordinates are taken; no "list" array is "Invalid forecast data";
   * otherwise the count restarts at 0 and the loop fills slots.
   */
  function ListParsed(d: WeatherData, buf: seq<byte>, j: nat): (r: Outcome)
    requires Shaped(d)
    ensures Shaped(r.d) && (r.Listed? <==> StrStr(buf, j, LIST_KEY).Some?)
    ensures r.d.request == d.request && r.d.cityName == d.cityName
    ensures r.d.mapImage == d.mapImage && r.d.mapSize == d.mapSize && r.d.mapLoaded == d.mapLoaded
    ensures r.Stopped? ==> r.d.state == Error && r.d.errorMessage == INVALID_FORECAST
                           && r.d.forecasts == d.forecasts && r.d.count == d.count
    ensures r.Listed? ==> r.d.state == d.state && r.d.errorMessage == d.errorMessage
    ensures r.Listed? ==> forall i :: r.d.count <= i < MAX_FORECASTS ==> r.d.forecasts[i] == d.forecasts[i]
  {
    var c := WithCoordinates(d, buf, j);
    match StrStr(buf, j, LIST_KEY)
    case None => Stopped(Failed(c, INVALID_FORECAST))
    case Some(l) => Listed(Forecasts(buf, l + |LIST_KEY|, c.(count := 0)))
  }

  /**
   * parse_forecast_response: no header end is "Invalid response";
   * "cod":"404" reports the city; "cod":401 is "Invalid API key"; the rest
   * is ListParsed. An early return leaves the slots and the count alone.
   */
  function ForecastParsed(d: WeatherData, buf: seq<byte>): (r: Outcome)
    requires Shaped(d)
    ensures Shaped(r.d)
    ensures r.Stopped? ==> r.d.state == Error && r.d.forecasts == d.forecasts && r.d.count == d.count
    ensures r.Listed? ==> r.d.state == d.state && r.d.errorMessage == d.errorMessage
    ensures r.Listed? ==> forall i :: r.d.count <= i < MAX_FORECASTS ==> r.d.forecasts[i] == d.forecasts[i]
    ensures r.d.request == d.request && r.d.cityName == d.cityName
    ensures r.d.mapImage == d.mapImage && r.d.mapSize == d.mapSize && r.d.mapLoaded == d.mapLoaded
  {
    match BodyStart(buf)
    case None => Stopped(Failed(d, INVALID_RESPONSE))
    case Some(j) =>
      if StrStr(buf, j, COD_404).Some? then Stopped(NotFound(d, buf, j))
      else if StrStr(buf, j, COD_401).Some? then Stopped(Failed(d, INVALID_API_KEY))
      else ListParsed(d, buf, j)
  }

  /**
   * Which replies end the parse early and with what message: the slot loop
   * runs exactly when there is a body, neither error code, and a list.
   */
  lemma ForecastErrors(d: WeatherData, buf: seq<byte>)
    requires Shaped(d)
    ensures BodyStart(buf).None? ==> ForecastParsed(d, buf) == Stopped(Failed(d, INVALID_RESPONSE))
    ensures BodyStart(buf).Some? ==>
              var j := BodyStart(buf).value;
              (StrStr(buf, j, COD_404).Some? ==> ForecastParsed(d, buf) == Stopped(NotFound(d, buf, j)))
              && (StrStr(buf, j, COD_404).None? && StrStr(buf, j, COD_401).Some? ==>
                    ForecastParsed(d, buf) == Stopped(Failed(d, INVALID_API_KEY)))
              && (StrStr(buf, j, COD_404).None? && StrStr(buf, j, COD_401).None? ==>
                    ForecastParsed(d, buf) == ListParsed(d, buf, j))
    ensures ForecastParsed(d, buf).Listed? <==>
              (BodyStart(buf).Some? && StrStr(buf, BodyStart(buf).value, COD_404).None?
               && StrStr(buf, BodyStart(buf).value, COD_401).None?
               && StrStr(buf, BodyStart(buf).value, LIST_KEY).Some?)
  {
  }

  /** A "cod":"404" reply with a quoted message carries it, cut to the 127 bytes error_message holds. */
  lemma NotFoundCarriesMessage(d: WeatherData, buf: seq<byte>, j: nat, k: nat, v: seq<byte>)
    requires StrStr(buf, j, MESSAGE_KEY) == Some(k)
    requires NoNul(v) && forall i :: 0 <= i < |v| ==> v[i] != QUOTE
    requires StartsAt(buf, k + |MESSAGE_KEY|, v + [QUOTE])
    ensures NotFound(d, buf, j).errorMessage == v[..Min(|v|, ERROR_MAX)]
  {
    QuotedValue(buf, k + |MESSAGE_KEY|, v, ERROR_MAX);
  }

  /** The same, seen from the whole parse. */
  lemma UnknownCityReported(d: WeatherData, buf: seq<byte>, j: nat, k: nat, v: seq<byte>)
    requires Shaped(d)
    requires BodyStart(buf) == Some(j) && StrStr(buf, j, COD_404).Some?
    requires StrStr(buf, j, MESSAGE_KEY) == Some(k)
    requires NoNul(v) && forall i :: 0 <= i < |v| ==> v[i] != QUOTE
    requires StartsAt(buf, k + |MESSAGE_KEY|, v + [QUOTE])
    ensures ForecastParsed(d, buf).Stopped? && ForecastParsed(d, buf).d.state == Error
    ensures ForecastParsed(d, buf).d.errorMessage == v[..Min(|v|, ERROR_MAX)]
  {
    assert ForecastParsed(d, buf) == Stopped(NotFound(d, buf, j));
    NotFoundCarriesMessage(d, buf, j, k, v);
  }

  /** A list without any "dt" key is not an error: no slot is filled and the state is left as it was. */
  lemma EmptyListIsNotAnError(d: WeatherData, buf: seq<byte>, j: nat, l: nat)
    requires Shaped(d)
    requires BodyStart(buf) == Some(j) && StrStr(buf, j, COD_404).None? && StrStr(buf, j, COD_401).None?
    requires StrStr(buf, j, LIST_KEY) == Some(l) && StrStr(buf, l + |LIST_KEY|, DT_KEY).None?
    ensures ForecastParsed(d, buf) == Listed(WithCoordinates(d, buf, j).(count := 0))
    ensures ForecastParsed(d, buf).d.count == 0 && ForecastParsed(d, buf).d.state == d.state
  {
    var c := WithCoordinates(d, buf, j).(count := 0);
    assert ForecastParsed(d, buf) == ListParsed(d, buf, j);
    assert NextForecast(buf, l + |LIST_KEY|, c) == Stop;
  }

  /** The first slot holds the timestamp after the first "dt" key inside the list. */
  lemma FirstEntryReadsFirstKey(d: WeatherData, buf: seq<byte>, j: nat, l: nat, p: nat)
    requires Shaped(d)
    requires BodyStart(buf) == Some(j) && StrStr(buf, j, COD_404).None? && StrStr(buf, j, COD_401).None?
    requires StrStr(buf, j, LIST_KEY) == Some(l) && StrStr(buf, l + |LIST_KEY|, DT_KEY) == Some(p)
    ensures ForecastParsed(d, buf).Listed? && ForecastParsed(d, buf).d.count >= 1
    ensures ForecastParsed(d, buf).d.forecasts[0] == Entry(buf, p, d.forecasts[0])
    ensures ForecastParsed(d, buf).d.forecasts[0].timestamp == Atol(buf, p + |DT_KEY|)
  {
    ForecastErrors(d, buf);
    ListFirstEntry(d, buf, j, l, p);
  }

  /** The same for the part after the error codes. */
  lemma ListFirstEntry(d: WeatherData, buf: seq<byte>, j: nat, l: nat, p: nat)
    requires Shaped(d)
    requires StrStr(buf, j, LIST_KEY) == Some(l) && StrStr(buf, l + |LIST_KEY|, DT_KEY) == Some(p)
    ensures ListParsed(d, buf, j).Listed? && ListParsed(d, buf, j).d.count >= 1
    ensures ListParsed(d, buf, j).d.forecasts[0] == Entry(buf, p, d.forecasts[0])
  {
    var c := WithCoordinates(d, buf, j).(count := 0);
    ListFound(d, buf, j, l);
    FirstSlotFromFirstKey(buf, l + |LIST_KEY|, c, p);
  }

  /** From an empty count, the first slot is the entry of the first "dt" key. */
  lemma FirstSlotFromFirstKey(buf: seq<byte>, sp: nat, c: WeatherData, p: nat)
    requires Shaped(c) && c.count == 0 && StrStr(buf, sp, DT_KEY) == Some(p)
    ensures Forecasts(buf, sp, c).count >= 1
    ensures Forecasts(buf, sp, c).forecasts[0] == Entry(buf, p, c.forecasts[0])
  {
    var s := NextForecast(buf, sp, c);
    assert s.d.forecasts[0] == Entry(buf, p, c.forecasts[0]);
    assert Forecasts(buf, sp, c) == Forecasts(buf, s.at, s.d);
  }

  /** One float field of a pass: strstr for the key, and atof after it when it is fewer than 500 bytes on. */
  method ReadFloat(buf: seq<byte>, p: nat, key: seq<byte>, previous: Float) returns (v: Float)
    requires |key| > 0 && NoNul(key)
    ensures v == FloatNear(buf, p, key, previous)
  {
    v := previous;
    var q := StrStr(buf, p, key);
    if q.Some? && q.value < p + NUMBER_WINDOW {
      v := Atof(CStrAt(buf, q.value + |key|));
    }
  }

  /** The humidity step of a pass: atoi after a "humidity" key fewer than 500 bytes on. */
  method ReadHumidity(buf: seq<byte>, p: nat, previous: int) returns (h: int)
    ensures h == HumidityNear(buf, p, previous)
  {
    h := previous;
    var q := StrStr(buf, p, HUMIDITY_KEY);
    if q.Some? && q.value < p + NUMBER_WINDOW {
      h := Atol(buf, q.value + |HUMIDITY_KEY|);
    }
  }

  /** The description step of a pass: strchr for the closing quote, then strncpy of at most 63 bytes. */
  method ReadDescription(buf: seq<byte>, p: nat, previous: seq<byte>) returns (s: seq<byte>)
    ensures s == DescriptionNear(buf, p, previous)
  {
    s := previous;
    var q := StrStr(buf, p, DESCRIPTION_KEY);
    if q.Some? && q.value < p + TEXT_WINDOW {
      var v := QuotedField(buf, q.value + |DESCRIPTION_KEY|, NAME_MAX);
      if v.Some? {
        s := v.value;
      }
    }
  }

  /** The icon step of a pass: strncpy of three bytes after an "icon" key fewer than 600 bytes on. */
  method ReadIcon(buf: seq<byte>, p: nat, previous: seq<byte>) returns (s: seq<byte>)
    ensures s == IconNear(buf, p, previous)
  {
    s := previous;
    var q := StrStr(buf, p, ICON_KEY);
    if q.Some? && q.value < p + TEXT_WINDOW {
      s := CopyN(buf, q.value + |ICON_KEY|, ICON_LEN);
    }
  }

  /** The fields of a pass, read into the slot one after the other. */
  method ReadEntry(buf: seq<byte>, p: nat, f: Forecast) returns (e: Forecast)
    ensures e == Entry(buf, p, f)
  {
    e := f.(timestamp := Atol(buf, p + |DT_KEY|));
    var temp := ReadFloat(buf, p, TEMP_KEY, f.temp);
    var feelsLike := ReadFloat(buf, p, FEELS_KEY, f.feelsLike);
    var humidity := ReadHumidity(buf, p, f.humidity);
    var description := ReadDescription(buf, p, f.description);
    var icon := ReadIcon(buf, p, f.icon);
    e := e.(temp := temp, feelsLike := feelsLike, humidity := humidity, description := description, icon := icon);
  }

  /** One pass of the forecast loop: the next "dt" key, or the end of the loop. */
  method ForecastPass(buf: seq<byte>, sp: nat, d: WeatherData) returns (s: ForecastStep)
    requires Shaped(d) && d.count < MAX_FORECASTS
    ensures s == NextForecast(buf, sp, d)
  {
    var p := StrStr(buf, sp, DT_KEY);
    if p.None? {
      return Stop;
    }
    var e := ReadEntry(buf, p.value, d.forecasts[d.count]);
    s := Next(p.value + ENTRY_STRIDE, d.(forecasts := d.forecasts[d.count := e], count := d.count + 1));
  }

  /** The forecast loop of parse_forecast_response: at most sixteen passes, each resuming 100 bytes on. */
  method ScanForecasts(buf: seq<byte>, start: nat, d0: WeatherData) returns (d: WeatherData)
    requires Shaped(d0)
    ensures d == Forecasts(buf, start, d0)
  {
    var sp: nat := start;
    d := d0;
    while d.count < MAX_FORECASTS
      invariant Shaped(d)
      invariant Forecasts(buf, sp, d) == Forecasts(buf, start, d0)
      decreases MAX_FORECASTS - d.count
    {
      var s := ForecastPass(buf, sp, d);
      if s.Stop? {
        break;
      }
      sp, d := s.at, s.d;
    }
  }

  /** The part of parse_forecast_response after the error codes, with the forecast loop as a loop. */
  method ParseList(d: WeatherData, buf: seq<byte>, j: nat) returns (r: Outcome)
    requires Shaped(d)
    ensures r == ListParsed(d, buf, j)
  {
    var l := StrStr(buf, j, LIST_KEY);
    if l.None? {
      ListMissing(d, buf, j);
      return Stopped(Failed(WithCoordinates(d, buf, j), INVALID_FORECAST));
    }
    r := ScanList(d, buf, j, l.value);
  }

  /** The forecast loop behind a "list" key at l, on the data with the coordinates taken. */
  method ScanList(d: WeatherData, buf: seq<byte>, j: nat, l: nat) returns (r: Outcome)
    requires Shaped(d) && StrStr(buf, j, LIST_KEY) == Some(l)
    ensures r == ListParsed(d, buf, j)
  {
    var listed := ScanForecasts(buf, l + |LIST_KEY|, WithCoordinates(d, buf, j).(count := 0));
    ListFound(d, buf, j, l);
    r := Listed(listed);
  }

  /** ListParsed without a "list" key. */
  lemma ListMissing(d: WeatherData, buf: seq<byte>, j: nat)
    requires Shaped(d) && StrStr(buf, j, LIST_KEY).None?
    ensures ListParsed(d, buf, j) == Stopped(Failed(WithCoordinates(d, buf, j), INVALID_FORECAST))
  {
  }

  /** ListParsed with a "list" key at l: the forecast loop from its end, the count reset. */
  lemma ListFound(d: WeatherData, buf: seq<byte>, j: nat, l: nat)
    requires Shaped(d) && StrStr(buf, j, LIST_KEY) == Some(l)
    ensures ListParsed(d, buf, j) == Listed(Forecasts(buf, l + |LIST_KEY|, WithCoordinates(d, buf, j).(count := 0)))
  {
  }

  /** parse_forecast_response. */
  method ParseForecastResponse(d: WeatherData, buf: seq<byte>) returns (r: Outcome)
    requires Shaped(d)
    ensures r == ForecastParsed(d, buf)
  {
    var j := BodyStart(buf);
    if j.None? {
      return Stopped(Failed(d, INVALID_RESPONSE));
    }
    if StrStr(buf, j.value, COD_404).Some? {
      return Stopped(NotFound(d, buf, j.value));
    }
    if StrStr(buf, j.value, COD_401).Some? {
      return Stopped(Failed(d, INVALID_API_KEY));
    }
    r := ParseList(d, buf, j.value);
  }

  // ---------------------------------------------------------------------
  // parse_map_response
  // ---------------------------------------------------------------------

  /** uint32_t arithmetic: the value modulo 2^32. */
  function Wrap32(v: int): (r: nat)
    ensures r < 0x1_0000_0000
    ensures 0 <= v < 0x1_0000_0000 ==> r == v
    ensures -0x1_0000_0000 <= v < 0 ==> r == v + 0x1_0000_0000
  {
    v % 0x1_0000_0000
  }

  /** The four bytes at j, as a read through a C string sees them (past the array they read as 0), are 0x89 'P' 'N' 'G'. */
  predicate PngAt(buf: seq<byte>, j: nat)
  {
    At(buf, j) == PNG_MAGIC[0] && At(buf, j + 1) == PNG_MAGIC[1]
    && At(buf, j + 2) == PNG_MAGIC[2] && At(buf, j + 3) == PNG_MAGIC[3]
  }

  /**
   * parse_map_response over the response array with `len` bytes held: no
   * header end is "Invalid map response"; a body that does not start with
   * the PNG signature is SUCCESS without a map; otherwise the map size is the
   * unsigned len minus the body offset, capped at 64 KiB, and the bytes of
   * the body that lie in the array are the map.
   */
  function MapParsed(d: WeatherData, buf: seq<byte>, len: nat): (r: WeatherData)
    requires Shaped(d)
    ensures Shaped(r)
    ensures r == d.(state := r.state, errorMessage := r.errorMessage,
                    mapImage := r.mapImage, mapSize := r.mapSize, mapLoaded := r.mapLoaded)
    ensures BodyStart(buf).None? ==> r == Failed(d, INVALID_MAP)
    ensures BodyStart(buf).Some? ==> r.state == Success && r.errorMessage == d.errorMessage
    ensures BodyStart(buf).Some? ==> (r.mapLoaded <==> PngAt(buf, BodyStart(buf).value))
    ensures BodyStart(buf).Some? && !PngAt(buf, BodyStart(buf).value) ==>
              r.mapImage == d.mapImage && r.mapSize == d.mapSize
  {
    match BodyStart(buf)
    case None => Failed(d, INVALID_MAP)
    case Some(j) =>
      if !PngAt(buf, j) then d.(mapLoaded := false, state := Success)
      else
        var size := Min(Wrap32(len - j), MAP_MAX);
        d.(mapImage := buf[j..Min(j + size, |buf|)], mapSize := size, mapLoaded := true, state := Success)
  }

  /**
   * When the body starts inside the held bytes of the 16384-byte buffer, the
   * map is exactly the held body: its size is len minus the body offset and
   * the 64 KiB cap never cuts it.
   */
  lemma MapIsHeldBody(d: WeatherData, buf: seq<byte>, len: nat, j: nat)
    requires Shaped(d) && |buf| == RESPONSE_SIZE && len < RESPONSE_SIZE
    requires BodyStart(buf) == Some(j) && j <= len && PngAt(buf, j)
    ensures MapParsed(d, buf, len).mapLoaded
    ensures MapParsed(d, buf, len).mapSize == len - j
    ensures MapParsed(d, buf, len).mapImage == buf[j..len]
  {
    assert Wrap32(len - j) == len - j;
  }

  /**
   * When the header end is found only past the held bytes, the unsigned
   * subtraction wraps and the size is the full 64 KiB cap, larger than the
   * whole response array.
   */
  lemma MapSizeWrapsPastHeld(d: WeatherData, buf: seq<byte>, len: nat, j: nat)
    requires Shaped(d) && |buf| == RESPONSE_SIZE
    requires BodyStart(buf) == Some(j) && len < j && PngAt(buf, j)
    ensures MapParsed(d, buf, len).mapSize == MAP_MAX > |buf|
  {
    assert Wrap32(len - j) == len - j + 0x1_0000_0000;
  }

  // ---------------------------------------------------------------------
  // weather_get_emoji and weather_get_cities
  // ---------------------------------------------------------------------

  const QUESTION: byte := 63

  /** The glyph for each two-character icon prefix the table knows. */
  const GLYPHS: map<seq<byte>, byte> := map[
    [48, 49] := 42,                                   // "01" clear sky: '*'
    [48, 50] := 111, [48, 51] := 111, [48, 52] := 111, // "02".."04" clouds: 'o'
    [48, 57] := 126, [49, 48] := 126,                 // "09" shower rain, "10" rain: '~'
    [49, 49] := 33,                                   // "11" thunderstorm: '!'
    [49, 51] := 83,                                   // "13" snow: 'S'
    [53, 48] := 70                                    // "50" mist: 'F'
  ]

  /**
   * weather_get_emoji: the one-character glyph for an icon code (None is a
   * NULL, Some the array holding the C string); '?' for NULL, a
   * string shorter than two characters, or an unknown code.
   */
  function Emoji(code: Option<seq<byte>>): (g: byte)
    ensures g in {42, 111, 126, 33, 83, 70, QUESTION}
  {
    match code
    case None => QUESTION
    case Some(s) =>
      if StrLen(s, 0) < 2 then QUESTION
      else if s[0] == 48 && s[1] == 49 then 42
      else if s[0] == 48 && (s[1] == 50 || s[1] == 51 || s[1] == 52) then 111
      else if s[0] == 48 && s[1] == 57 then 126
      else if s[0] == 49 && s[1] == 48 then 126
      else if s[0] == 49 && s[1] == 49 then 33
      else if s[0] == 49 && s[1] == 51 then 83
      else if s[0] == 53 && s[1] == 48 then 70
      else QUESTION
  }

  /** The glyph is the table's entry for the first two characters, and '?' when there is none. */
  lemma EmojiFollowsTable(s: seq<byte>)
    ensures Emoji(Some(s)) == if StrLen(s, 0) >= 2 && s[..2] in GLYPHS then GLYPHS[s[..2]] else QUESTION
  {
    if StrLen(s, 0) >= 2 {
      assert s[..2] == [s[0], s[1]];
    }
  }

  /** Only the first two characters matter: codes that agree on them get the same glyph. */
  lemma EmojiReadsTwoCharacters(s: seq<byte>, t: seq<byte>)
    requires StrLen(s, 0) >= 2 && StrLen(t, 0) >= 2 && s[..2] == t[..2]
    ensures Emoji(Some(s)) == Emoji(Some(t))
  {
    EmojiFollowsTable(s);
    EmojiFollowsTable(t);
  }

  /** weather_get_cities: the names of the ten predefined cities (their float coordinates are not modelled). */
  function CityNames(): (names: seq<seq<byte>>)
    ensures |names| == MAX_CITIES
    ensures forall i :: 0 <= i < |names| ==> 0 < |names[i]| <= NAME_MAX && NoNul(names[i])
  {
    [
      /* New York */ [78, 101, 119, 32, 89, 111, 114, 107],
      /* Los Angeles */ [76, 111, 115, 32, 65, 110, 103, 101, 108, 101, 115],
      /* London */ [76, 111, 110, 100, 111, 110],
      /* Paris */ [80, 97, 114, 105, 115],
      /* Tokyo */ [84, 111, 107, 121, 111],
      /* Sydney */ [83, 121, 100, 110, 101, 121],
      /* Athens */ [65, 116, 104, 101, 110, 115],
      /* Mumbai */ [77, 117, 109, 98, 97, 105],
      /* Dubai */ [68, 117, 98, 97, 105],
      /* Toronto */ [84, 111, 114, 111, 110, 116, 111]
    ]
  }

  // ---------------------------------------------------------------------
  // The requests
  // ---------------------------------------------------------------------

  /** The GET request weather_api_fetch_forecast formats; the city goes in as given, not URL-encoded. */
  function ForecastRequestText(city: seq<byte>, key: seq<byte>): (r: seq<byte>)
    ensures |r| < REQUEST_SIZE
  {
    Truncated(FORECAST_PATH + city + (APPID_PARAM + key) + FORECAST_TAIL, REQUEST_SIZE)
  }

  /** When the request fits, the city sits unchanged right after the path. */
  lemma ForecastRequestCarriesCity(city: seq<byte>, key: seq<byte>)
    requires |FORECAST_PATH| + |city| + |APPID_PARAM| + |key| + |FORECAST_TAIL| < REQUEST_SIZE
    ensures var r := ForecastRequestText(city, key);
            r[|FORECAST_PATH|..|FORECAST_PATH| + |city|] == city
            && r[|r| - |FORECAST_TAIL|..] == FORECAST_TAIL
  {
    Between(FORECAST_PATH, city, APPID_PARAM + key, FORECAST_TAIL);
  }

  /** The middle and the end of a concatenation, sliced back out. */
  lemma Between(a: seq<byte>, b: seq<byte>, c: seq<byte>, t: seq<byte>)
    ensures var r := a + b + c + t;
            r[|a|..|a| + |b|] == b && r[|r| - |t|..] == t
  {
    var r := a + b + c + t;
    assert r == a + (b + (c + t));
  }

  /** The GET request weather_api_fetch_map formats for the map tile (x, y) at zoom 5. */
  function MapRequestText(key: seq<byte>, x: int, y: int): (r: seq<byte>)
    ensures |r| < REQUEST_SIZE
  {
    Truncated(MAP_PATH + Decimal(x) + [47] + Decimal(y) + PNG_QUERY + key + MAP_TAIL, REQUEST_SIZE)
  }

  // ---------------------------------------------------------------------
  // The client
  // ---------------------------------------------------------------------

  /** What weather_dns_found does to the data once an address is known. */
  function Connecting(d: WeatherData, pcbOk: bool, connectOk: bool): WeatherData
  {
    if !pcbOk then Failed(d, OUT_OF_CONNECTIONS)
    else if !connectOk then Failed(d, CONNECTION_FAILED)
    else d
  }

  /** The data after the dns_gethostbyname call that ends both fetch functions. */
  function AfterLookup(d: WeatherData, lookup: Lookup, pcbOk: bool, connectOk: bool): WeatherData
  {
    match lookup
    case Cached => Connecting(d, pcbOk, connectOk)
    case InProgress => d
    case LookupFailed => Failed(d, DNS_FAILED)
  }

  /** Whether a connection is open after that lookup. */
  function OpenAfterLookup(lookup: Lookup, pcbOk: bool, connectOk: bool, wasOpen: bool): bool
  {
    if lookup == Cached then pcbOk && connectOk else wasOpen
  }

  /** What one handshake step does to the data: a fatal result or a failed request write is an error. */
  function AfterHandshake(d: WeatherData, tls: TlsCall): WeatherData
  {
    match tls.handshake
    case Fatal => Failed(d, HANDSHAKE_FAILED)
    case Done => if tls.writeOk then d else Failed(d, REQUEST_NOT_SENT)
    case _ => d
  }

  /**
   * What the float arithmetic and the network decide when a parsed forecast
   * ends: whether both stored coordinates are nonzero, the map tile they
   * give, and how the map request's lookup and connection go.
   */
  datatype Chain = Chain(coordsNonZero: bool, tileX: int, tileY: int, lookup: Lookup, pcbOk: bool, connectOk: bool)

  /** A forecast response that parses through its list chains into the map request when the coordinates are nonzero. */
  predicate ChainsToMap(d: WeatherData, buf: seq<byte>, len: nat, chain: Chain)
    requires Shaped(d)
  {
    len > 0 && d.request == ForecastRequest && ForecastParsed(d, buf).Listed? && chain.coordsNonZero
  }

  /**
   * The data after the server closes with `len` bytes held: nothing held
   * leaves it alone; a map response goes to the map parser; a forecast
   * response goes to the forecast parser, and a parse that gets through the
   * list either starts the map request or ends SUCCESS without a map.
   */
  function Closed(d: WeatherData, buf: seq<byte>, len: nat, chain: Chain): (r: WeatherData)
    requires Shaped(d)
    ensures Shaped(r)
    ensures len == 0 ==> r == d
    ensures len > 0 ==> r.state == Success || r.state == Error || r.state == FetchingMap
    ensures r.state == FetchingMap && len > 0 ==> ChainsToMap(d, buf, len, chain) && r.request == MapRequest
    ensures len > 0 && d.request == ForecastRequest && ForecastParsed(d, buf).Listed? && !chain.coordsNonZero ==>
              r.state == Success && !r.mapLoaded
  {
    if len == 0 then d
    else if d.request == MapRequest then MapParsed(d, buf, len)
    else
      match ForecastParsed(d, buf)
      case Stopped(e) => e
      case Listed(e) =>
        if chain.coordsNonZero then
          AfterLookup(e.(state := FetchingMap, request := MapRequest), chain.lookup, chain.pcbOk, chain.connectOk)
        else e.(state := Success, mapLoaded := false)
  }

  class WeatherClient {
    /** g_response_buffer and g_response_len. */
    const resp: ResponseBuffer
    /** g_weather_data. */
    var data: WeatherData
    /** The C string in g_request_buffer. */
    var request: seq<byte>
    /** The C string in g_current_host, the TLS server name. */
    var host: seq<byte>
    /** The C string in g_api_key, kept for the chained map request. */
    var apiKey: seq<byte>
    var sslInitialized: bool
    var handshakeDone: bool
    /** g_tcp_pcb != NULL. */
    var pcbOpen: bool
    /** Every request handed to mbedtls_ssl_write, in order. */
    var sent: seq<seq<byte>>

    /** The buffer keeps its shape, every string fits its array. */
    ghost predicate Valid()
      reads this, resp, resp.buffer
    {
      resp.Valid() && resp.capacity == RESPONSE_SIZE && Shaped(data) && |apiKey| <= NAME_MAX && NoNul(apiKey)
    }

    /** The zero-initialised statics. */
    constructor ()
      ensures Valid() && fresh(resp) && fresh(resp.buffer)
      ensures data == Zeroed() && resp.Image() == Cleared(RESPONSE_SIZE)
      ensures request == [] && host == [] && apiKey == [] && sent == []
      ensures !sslInitialized && !handshakeDone && !pcbOpen
    {
      resp := new ResponseBuffer(RESPONSE_SIZE);
      data := Zeroed();
      request := [];
      host := [];
      apiKey := [];
      sslInitialized := false;
      handshakeDone := false;
      pcbOpen := false;
      sent := [];
    }

    /** weather_api_init: the data is zeroed (IDLE, no map) and both TLS flags cleared. */
    method Init()
      requires Valid()
      modifies this
      ensures Valid() && data == Zeroed() && !sslInitialized && !handshakeDone
      ensures request == old(request) && host == old(host) && apiKey == old(apiKey)
      ensures pcbOpen == old(pcbOpen) && sent == old(sent)
    {
      data := Zeroed();
      sslInitialized := false;
      handshakeDone := false;
    }

    /**
     * weather_dns_found: with an address, any open connection is aborted and
     * a new one is created and connected; without one, "DNS lookup failed".
     */
    method OnDnsFound(resolved: bool, pcbOk: bool, connectOk: bool)
      requires Valid()
      modifies this
      ensures Valid()
      ensures resolved ==> data == Connecting(old(data), pcbOk, connectOk) && pcbOpen == (pcbOk && connectOk)
      ensures !resolved ==> data == Failed(old(data), DNS_FAILED) && pcbOpen == old(pcbOpen)
      ensures request == old(request) && host == old(host) && apiKey == old(apiKey)
      ensures sslInitialized == old(sslInitialized) && handshakeDone == old(handshakeDone) && sent == old(sent)
    {
      if resolved {
        pcbOpen := false;
        if pcbOk {
          if connectOk {
            pcbOpen := true;
          } else {
            data := Failed(data, CONNECTION_FAILED);
          }
        } else {
          data := Failed(data, OUT_OF_CONNECTIONS);
        }
      } else {
        data := Failed(data, DNS_FAILED);
      }
    }

    /** The dns_gethostbyname call that ends both fetch functions. */
    method StartLookup(lookup: Lookup, pcbOk: bool, connectOk: bool)
      requires Valid()
      modifies this
      ensures Valid()
      ensures data == AfterLookup(old(data), lookup, pcbOk, connectOk)
      ensures pcbOpen == OpenAfterLookup(lookup, pcbOk, connectOk, old(pcbOpen))
      ensures request == old(request) && host == old(host) && apiKey == old(apiKey)
      ensures sslInitialized == old(sslInitialized) && handshakeDone == old(handshakeDone) && sent == old(sent)
    {
      if lookup == Cached {
        OnDnsFound(true, pcbOk, connectOk);
      } else if lookup == LookupFailed {
        data := Failed(data, DNS_FAILED);
      }
    }

    /**
     * weather_api_fetch_forecast: never refused, even while a request is in
     * flight. The key is kept for the map request, the state is
     * FETCHING_FORECAST with no slot filled, the city name is kept (at most 63
     * bytes), the request is formatted, the buffer zeroed, then the lookup.
     */
    method FetchForecast(key: seq<byte>, city: seq<byte>, lookup: Lookup, pcbOk: bool, connectOk: bool)
      requires Valid()
      requires NoNul(key) && NoNul(city)
      modifies this, resp, resp.buffer
      ensures Valid()
      ensures apiKey == key[..Min(|key|, NAME_MAX)]
      ensures request == ForecastRequestText(city, key) && host == API_HOST
      ensures resp.Image() == Cleared(RESPONSE_SIZE)
      ensures var fetching := old(data).(state := FetchingForecast, request := ForecastRequest,
                                         cityName := city[..Min(|city|, NAME_MAX)], count := 0);
              data == AfterLookup(fetching, lookup, pcbOk, connectOk)
      ensures pcbOpen == OpenAfterLookup(lookup, pcbOk, connectOk, old(pcbOpen))
      ensures sslInitialized == old(sslInitialized) && handshakeDone == old(handshakeDone) && sent == old(sent)
    {
      apiKey := key[..Min(|key|, NAME_MAX)];
      data := data.(state := FetchingForecast, request := ForecastRequest,
                    cityName := city[..Min(|city|, NAME_MAX)], count := 0);
      request := ForecastRequestText(city, key);
      resp.Reset();
      host := API_HOST;
      StartLookup(lookup, pcbOk, connectOk);
    }

    /**
     * weather_api_fetch_map for the tile (x, y): FETCHING_MAP with a map
     * request, the request formatted, the buffer zeroed, then the lookup.
     */
    method FetchMap(key: seq<byte>, x: int, y: int, lookup: Lookup, pcbOk: bool, connectOk: bool)
      requires Valid()
      requires NoNul(key)
      modifies this, resp, resp.buffer
      ensures Valid()
      ensures request == MapRequestText(key, x, y) && host == MAP_HOST
      ensures resp.Image() == Cleared(RESPONSE_SIZE)
      ensures data == AfterLookup(old(data).(state := FetchingMap, request := MapRequest), lookup, pcbOk, connectOk)
      ensures pcbOpen == OpenAfterLookup(lookup, pcbOk, connectOk, old(pcbOpen))
      ensures apiKey == old(apiKey) && sslInitialized == old(sslInitialized)
      ensures handshakeDone == old(handshakeDone) && sent == old(sent)
    {
      data := data.(state := FetchingMap, request := MapRequest);
      request := MapRequestText(key, x, y);
      resp.Reset();
      host := MAP_HOST;
      StartLookup(lookup, pcbOk, connectOk);
    }

    /**
     * One mbedtls_ssl_handshake call while the handshake is not done: the
     * engine pulls ciphertext from the front of the buffer; Done sets the
     * flag and writes the request; WantRead and WantWrite change nothing
     * else; any other result is "TLS handshake failed".
     */
    method HandshakeStep(tls: TlsCall)
      requires Valid() && !handshakeDone
      modifies this, resp, resp.buffer
      ensures Valid()
      ensures resp.Image() == PoppedAll(old(resp.Image()), tls.pulls)
      ensures handshakeDone <==> tls.handshake == Done
      ensures data == AfterHandshake(old(data), tls) && sent == old(sent) + Written(tls, request)
      ensures request == old(request) && host == old(host) && apiKey == old(apiKey)
      ensures sslInitialized == old(sslInitialized) && pcbOpen == old(pcbOpen)
    {
      resp.PullAll(tls.pulls);
      match tls.handshake
      case Done =>
        handshakeDone := true;
        if tls.writeOk {
          sent := sent + [request];
        } else {
          data := Failed(data, REQUEST_NOT_SENT);
        }
      case Fatal =>
        data := Failed(data, HANDSHAKE_FAILED);
      case _ =>
    }

    /**
     * tcp_client_connected: a connection error is reported; otherwise TLS is
     * initialised once, the session is reset and one handshake step runs.
     */
    method OnConnected(connectOk: bool, sslInitOk: bool, tls: TlsCall)
      requires Valid()
      modifies this, resp, resp.buffer
      ensures Valid()
      ensures !connectOk ==> data == Failed(old(data), CONNECTION_ERROR) && sslInitialized == old(sslInitialized)
      ensures !connectOk || (!old(sslInitialized) && !sslInitOk) ==>
                resp.Image() == old(resp.Image()) && handshakeDone == old(handshakeDone) && sent == old(sent)
      ensures connectOk && !old(sslInitialized) && !sslInitOk ==> data == Failed(old(data), SSL_INIT_FAILED) && !sslInitialized
      ensures connectOk && (old(sslInitialized) || sslInitOk) ==>
                sslInitialized
                && resp.Image() == PoppedAll(old(resp.Image()), tls.pulls)
                && (handshakeDone <==> tls.handshake == Done)
                && data == AfterHandshake(old(data), tls) && sent == old(sent) + Written(tls, request)
      ensures request == old(request) && host == old(host) && apiKey == old(apiKey) && pcbOpen == old(pcbOpen)
    {
      if !connectOk {
        data := Failed(data, CONNECTION_ERROR);
        return;
      }
      if !sslInitialized {
        if !sslInitOk {
          data := Failed(data, SSL_INIT_FAILED);
          return;
        }
        sslInitialized := true;
      }
      handshakeDone := false;
      HandshakeStep(tls);
    }

    /**
     * tcp_client_recv with data: the segment is appended for the TLS engine
     * (cut so the length stays below 16384); before the handshake is done
     * one handshake step runs, after it one mbedtls_ssl_read whose plaintext
     * is appended to the same buffer when it fits.
     */
    method OnData(bytes: seq<byte>, tls: TlsCall)
      requires Valid() && |tls.plaintext| <= DECRYPT_MAX
      modifies this, resp, resp.buffer
      ensures Valid()
      ensures var staged := WithCiphertext(old(resp.Image()), bytes, RESPONSE_SIZE);
              if old(handshakeDone) then
                resp.Image() == WithPlaintext(PoppedAll(staged, tls.pulls), tls.plaintext, RESPONSE_SIZE)
                && handshakeDone && data == old(data) && sent == old(sent)
              else
                resp.Image() == PoppedAll(staged, tls.pulls)
                && (handshakeDone <==> tls.handshake == Done)
                && data == AfterHandshake(old(data), tls) && sent == old(sent) + Written(tls, request)
      ensures request == old(request) && host == old(host) && apiKey == old(apiKey)
      ensures sslInitialized == old(sslInitialized) && pcbOpen == old(pcbOpen)
    {
      resp.AppendCiphertext(bytes);
      if !handshakeDone {
        HandshakeStep(tls);
      } else {
        resp.PullAll(tls.pulls);
        resp.AppendPlaintext(tls.plaintext);
      }
    }

    /** tcp_client_recv with an error: "Receive error"; the buffer is untouched. */
    method OnReceiveError()
      requires Valid()
      modifies this
      ensures Valid() && data == Failed(old(data), RECEIVE_ERROR)
      ensures request == old(request) && host == old(host) && apiKey == old(apiKey)
      ensures sslInitialized == old(sslInitialized) && handshakeDone == old(handshakeDone)
      ensures pcbOpen == old(pcbOpen) && sent == old(sent)
    {
      data := Failed(data, RECEIVE_ERROR);
    }

    /**
     * tcp_client_recv with no segment (the server closed): the connection is
     * closed, a non-empty response is parsed by the parser of the current
     * request (a forecast may start the map request, which zeroes the
     * buffer and looks up the tile server), then the length and the
     * handshake flag are reset.
     */
    method OnClose(chain: Chain)
      requires Valid()
      modifies this, resp, resp.buffer
      ensures Valid()
      ensures data == Closed(old(data), old(resp.buffer[..]), old(resp.len), chain)
      ensures ChainsToMap(old(data), old(resp.buffer[..]), old(resp.len), chain) ==>
                request == MapRequestText(apiKey, chain.tileX, chain.tileY) && host == MAP_HOST
                && resp.Image() == Cleared(RESPONSE_SIZE)
                && pcbOpen == OpenAfterLookup(chain.lookup, chain.pcbOk, chain.connectOk, false)
      ensures !ChainsToMap(old(data), old(resp.buffer[..]), old(resp.len), chain) ==>
                request == old(request) && host == old(host) && !pcbOpen
                && resp.Image() == Staging(old(resp.buffer[..]), 0)
      ensures !handshakeDone && apiKey == old(apiKey) && sslInitialized == old(sslInitialized) && sent == old(sent)
    {
      pcbOpen := false;
      if resp.len > 0 {
        if data.request == ForecastRequest {
          ForecastClosed(chain);
        } else {
          data := MapParsed(data, resp.buffer[..], resp.len);
        }
      }
      resp.Forget();
      handshakeDone := false;
    }

    /**
     * The forecast branch of a close: parse_forecast_response, which ends by
     * starting the map request when the stored coordinates are nonzero.
     */
    method ForecastClosed(chain: Chain)
      requires Valid() && resp.len > 0 && data.request == ForecastRequest && !pcbOpen
      modifies this, resp, resp.buffer
      ensures Valid()
      ensures data == Closed(old(data), old(resp.buffer[..]), old(resp.len), chain)
      ensures ChainsToMap(old(data), old(resp.buffer[..]), old(resp.len), chain) ==>
                request == MapRequestText(apiKey, chain.tileX, chain.tileY) && host == MAP_HOST
                && resp.Image() == Cleared(RESPONSE_SIZE)
                && pcbOpen == OpenAfterLookup(chain.lookup, chain.pcbOk, chain.connectOk, false)
      ensures !ChainsToMap(old(data), old(resp.buffer[..]), old(resp.len), chain) ==>
                request == old(request) && host == old(host) && !pcbOpen && resp.Image() == old(resp.Image())
      ensures handshakeDone == old(handshakeDone) && apiKey == old(apiKey)
      ensures sslInitialized == old(sslInitialized) && sent == old(sent)
    {
      var o := ParseForecastResponse(data, resp.buffer[..]);
      data := o.d;
      if o.Listed? {
        if chain.coordsNonZero {
          FetchMap(apiKey, chain.tileX, chain.tileY, chain.lookup, chain.pcbOk, chain.connectOk);
        } else {
          data := data.(state := Success, mapLoaded := false);
        }
      }
    }

    /** tcp_client_err: lwIP has freed the connection; "Network error". */
    method OnTcpError()
      requires Valid()
      modifies this
      ensures Valid() && data == Failed(old(data), NETWORK_ERROR) && !pcbOpen
      ensures request == old(request) && host == old(host) && apiKey == old(apiKey)
      ensures sslInitialized == old(sslInitialized) && handshakeDone == old(handshakeDone) && sent == old(sent)
    {
      data := Failed(data, NETWORK_ERROR);
      pcbOpen := false;
    }

    /** weather_api_cleanup: the map is dropped (size 0, not loaded); nothing else changes. */
    method Cleanup()
      requires Valid()
      modifies this
      ensures Valid() && data == old(data).(mapImage := [], mapSize := 0, mapLoaded := false)
      ensures request == old(request) && host == old(host) && apiKey == old(apiKey)
      ensures sslInitialized == old(sslInitialized) && handshakeDone == old(handshakeDone)
      ensures pcbOpen == old(pcbOpen) && sent == old(sent)
    {
      data := data.(mapImage := [], mapSize := 0, mapLoaded := false);
    }
  }
}
