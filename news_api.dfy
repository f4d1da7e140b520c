/**
 * The headline client of src/news_api.c: plain HTTP over one TCP connection
 * into a 4096-byte response buffer, a guard against a second fetch while one
 * is running, and a substring scanner that copies up to ten raw titles (no
 * escape decoding) and, when a "name" key follows closely, their source.
 */
module NewsApi {
  import opened Bytes
  import opened TextScan
  import opened Transport

  /** MAX_NEWS_ARTICLES */
  const MAX_ARTICLES: nat := 10
  /** NEWS_TITLE_MAX_LEN */
  const TITLE_MAX: nat := 128
  /** NEWS_SOURCE_MAX_LEN */
  const SOURCE_MAX: nat := 64
  /** error_message is char[128]. */
  const ERROR_MAX: nat := 127
  /** g_response_buffer is char[4096]. */
  const RESPONSE_SIZE: nat := 4096
  /** g_request_buffer is char[512]. */
  const REQUEST_SIZE: nat := 512
  /** A "name" key counts as the article's source only when it starts this close to the title. */
  const SOURCE_WINDOW: nat := 200

  /** "status":"error" */
  const STATUS_ERROR: seq<byte> := [34, 115, 116, 97, 116, 117, 115, 34, 58, 34, 101, 114, 114, 111, 114, 34]
  /** "message":" */
  const MESSAGE_KEY: seq<byte> := [34, 109, 101, 115, 115, 97, 103, 101, 34, 58, 34]
  /** "title":" */
  const TITLE_KEY: seq<byte> := [34, 116, 105, 116, 108, 101, 34, 58, 34]
  /** "name":" */
  const NAME_KEY: seq<byte> := [34, 110, 97, 109, 101, 34, 58, 34]
  /** Invalid response */
  const INVALID_RESPONSE: seq<byte> := [73, 110, 118, 97, 108, 105, 100, 32, 114, 101, 115, 112, 111, 110, 115, 101]
  /** API error */
  const API_ERROR: seq<byte> := [65, 80, 73, 32, 101, 114, 114, 111, 114]
  /** No articles found */
  const NO_ARTICLES: seq<byte> := [78, 111, 32, 97, 114, 116, 105, 99, 108, 101, 115, 32, 102, 111, 117, 110, 100]
  /** Connection failed */
  const CONNECTION_FAILED: seq<byte> := [67, 111, 110, 110, 101, 99, 116, 105, 111, 110, 32, 102, 97, 105, 108, 101, 100]
  /** Failed to create connection */
  const NO_CONNECTION: seq<byte> := [70, 97, 105, 108, 101, 100, 32, 116, 111, 32, 99, 114, 101, 97, 116, 101, 32, 99, 111, 110, 110, 101, 99, 116, 105, 111, 110]
  /** DNS lookup failed */
  const DNS_FAILED: seq<byte> := [68, 78, 83, 32, 108, 111, 111, 107, 117, 112, 32, 102, 97, 105, 108, 101, 100]
  /** Connection error */
  const CONNECTION_ERROR: seq<byte> := [67, 111, 110, 110, 101, 99, 116, 105, 111, 110, 32, 101, 114, 114, 111, 114]
  /** Failed to send request */
  const REQUEST_NOT_SENT: seq<byte> := [70, 97, 105, 108, 101, 100, 32, 116, 111, 32, 115, 101, 110, 100, 32, 114, 101, 113, 117, 101, 115, 116]
  /** Receive error */
  const RECEIVE_ERROR: seq<byte> := [82, 101, 99, 101, 105, 118, 101, 32, 101, 114, 114, 111, 114]
  /** Network error */
  const NETWORK_ERROR: seq<byte> := [78, 101, 116, 119, 111, 114, 107, 32, 101, 114, 114, 111, 114]
  /** GET /v2/top-headlines?country= */
  const HEADLINES_PATH: seq<byte> := [71, 69, 84, 32, 47, 118, 50, 47, 116, 111, 112, 45, 104, 101, 97, 100, 108, 105, 110, 101, 115, 63, 99, 111, 117, 110, 116, 114, 121, 61]
  /** &pageSize=10&apiKey= */
  const KEY_PARAM: seq<byte> := [38, 112, 97, 103, 101, 83, 105, 122, 101, 61, 49, 48, 38, 97, 112, 105, 75, 101, 121, 61]
  /** (a space) HTTP/1.1\r\nHost: newsapi.org\r\nConnection: close\r\nUser-Agent: PicoCalc-Omnitool\r\n\r\n */
  const NEWS_TAIL: seq<byte> := [32, 72, 84, 84, 80, 47, 49, 46, 49, 13, 10, 72, 111, 115, 116, 58, 32, 110, 101, 119, 115, 97, 112, 105, 46, 111, 114, 103, 13, 10, 67, 111, 110, 110, 101, 99, 116, 105, 111, 110, 58, 32, 99, 108, 111, 115, 101, 13, 10, 85, 115, 101, 114, 45, 65, 103, 101, 110, 116, 58, 32, 80, 105, 99, 111, 67, 97, 108, 99, 45, 79, 109, 110, 105, 116, 111, 111, 108, 13, 10, 13, 10]

  datatype NewsState = Idle | Fetching | Success | Error

  /** news_article_t, each field the C string in its array. */
  datatype Article = Article(title: seq<byte>, source: seq<byte>, description: seq<byte>)

  /** news_data_t: all ten article slots, the count of those filled by the last parse, the state. */
  datatype NewsData = NewsData(articles: seq<Article>, count: nat, state: NewsState, errorMessage: seq<byte>)

  /** news_data_t after memset to zero. */
  function Zeroed(): (d: NewsData)
    ensures |d.articles| == MAX_ARTICLES && d.count == 0 && d.state == Idle
  {
    NewsData(seq(MAX_ARTICLES, _ => Article([], [], [])), 0, Idle, [])
  }

  /** The shape every news_data_t the code produces has. */
  predicate Shaped(d: NewsData)
  {
    |d.articles| == MAX_ARTICLES && d.count <= MAX_ARTICLES && |d.errorMessage| <= ERROR_MAX
    && forall i :: 0 <= i < MAX_ARTICLES ==>
         |d.articles[i].title| <= TITLE_MAX && |d.articles[i].source| <= SOURCE_MAX
  }

  // ---------------------------------------------------------------------
  // parse_news_response
  // ---------------------------------------------------------------------

  /**
   * The source of the article whose title starts at t: the value of the
   * first "name" key after t when that key starts fewer than 200 bytes
   * after t and its value is closed; otherwise the slot's old source.
   */
  function SourceNear(buf: seq<byte>, t: nat, previous: seq<byte>): (s: seq<byte>)
    ensures s == previous || |s| <= SOURCE_MAX
  {
    match StrStr(buf, t, NAME_KEY)
    case None => previous
    case Some(n) =>
      if n < t + SOURCE_WINDOW then
        (match QuotedField(buf, n + 8, SOURCE_MAX)
         case None => previous
         case Some(v) => v)
      else previous
  }

  /** One pass of the article loop: stop, or resume after the title's closing quote with one more article. */
  datatype NewsStep = Stop | Next(at: nat, d: NewsData)

  /** A slot after its title between t and the closing quote at e is copied (and maybe its source). */
  function Titled(a: Article, buf: seq<byte>, t: nat, e: nat): (r: Article)
    requires t <= e <= |buf|
    ensures r.title == buf[t..t + Min(e - t, TITLE_MAX)] && r.description == a.description
    ensures r.source == a.source || |r.source| <= SOURCE_MAX
  {
    a.(title := buf[t..t + Min(e - t, TITLE_MAX)], source := SourceNear(buf, t, a.source))
  }

  /** The title (and maybe source) copied into slot d.count, starting the search at sp. */
  function NextArticle(buf: seq<byte>, sp: nat, d: NewsData): (s: NewsStep)
    requires |d.articles| == MAX_ARTICLES && d.count < MAX_ARTICLES
    ensures s.Next? ==> sp < s.at <= |buf|
    ensures s.Next? ==> s.d.count == d.count + 1 && s.d.state == d.state && s.d.errorMessage == d.errorMessage
    ensures s.Next? ==> (|s.d.articles| == MAX_ARTICLES
              && (forall i :: 0 <= i < MAX_ARTICLES && i != d.count ==> s.d.articles[i] == d.articles[i])
              && |s.d.articles[d.count].title| <= TITLE_MAX
              && s.d.articles[d.count].description == d.articles[d.count].description
              && (s.d.articles[d.count].source == d.articles[d.count].source || |s.d.articles[d.count].source| <= SOURCE_MAX))
  {
    match StrStr(buf, sp, TITLE_KEY)
    case None => Stop
    case Some(p) =>
      var t := p + 9;
      match StrChr(buf, t, QUOTE)
      case None => Stop
      case Some(e) =>
        Next(e + 1, d.(articles := d.articles[d.count := Titled(d.articles[d.count], buf, t, e)], count := d.count + 1))
  }

  /**
   * The article loop from sp: at most ten articles, slots past the new count
   * and every description untouched, each new title at most 128 bytes and
   * each new source at most 64 bytes or left as it was.
   */
  function Articles(buf: seq<byte>, sp: nat, d: NewsData): (r: NewsData)
    requires |d.articles| == MAX_ARTICLES && d.count <= MAX_ARTICLES
    ensures |r.articles| == MAX_ARTICLES && d.count <= r.count <= MAX_ARTICLES
    ensures r.state == d.state && r.errorMessage == d.errorMessage
    ensures forall i :: 0 <= i < MAX_ARTICLES && !(d.count <= i < r.count) ==> r.articles[i] == d.articles[i]
    ensures forall i :: 0 <= i < MAX_ARTICLES ==> r.articles[i].description == d.articles[i].description
    ensures forall i :: d.count <= i < r.count ==>
              |r.articles[i].title| <= TITLE_MAX
              && (r.articles[i].source == d.articles[i].source || |r.articles[i].source| <= SOURCE_MAX)
    decreases |buf| - sp
  {
    if d.count >= MAX_ARTICLES then d
    else
      var s := NextArticle(buf, sp, d);
      if s.Stop? then d else Articles(buf, s.at, s.d)
  }

  /** A "status":"error" body: the message value up to its quote, at most 127 bytes, or "API error". */
  function ErrorParsed(d: NewsData, buf: seq<byte>, j: nat): (r: NewsData)
    ensures r.state == Error && r.articles == d.articles && r.count == d.count
    ensures |r.errorMessage| <= Max(|d.errorMessage|, ERROR_MAX)
    ensures StrStr(buf, j, MESSAGE_KEY).None? ==> r.errorMessage == API_ERROR
    ensures StrStr(buf, j, MESSAGE_KEY).Some?
            && QuotedField(buf, StrStr(buf, j, MESSAGE_KEY).value + 11, ERROR_MAX).None? ==>
              r.errorMessage == d.errorMessage
  {
    match StrStr(buf, j, MESSAGE_KEY)
    case None => d.(state := Error, errorMessage := API_ERROR)
    case Some(k) =>
      (match QuotedField(buf, k + 11, ERROR_MAX)
       case None => d.(state := Error)
       case Some(v) => d.(state := Error, errorMessage := v))
  }

  /**
   * parse_news_response: no header end is "Invalid response"; an error
   * status is ErrorParsed; otherwise the count restarts at 0, the article
   * loop runs over the body, and the result is SUCCESS exactly when it
   * found an article.
   */
  function NewsParsed(d: NewsData, buf: seq<byte>): (r: NewsData)
    requires Shaped(d)
    ensures Shaped(r) && (r.state == Success || r.state == Error)
    ensures forall i :: 0 <= i < MAX_ARTICLES ==> r.articles[i].description == d.articles[i].description
    ensures BodyStart(buf).None? ==> r == d.(state := Error, errorMessage := INVALID_RESPONSE)
    ensures BodyStart(buf).Some? && StrStr(buf, BodyStart(buf).value, STATUS_ERROR).Some? ==>
              r.state == Error && r.count == d.count
    ensures BodyStart(buf).Some? && StrStr(buf, BodyStart(buf).value, STATUS_ERROR).None? ==>
              (r.state == Success <==> r.count > 0)
              && (r.count == 0 ==> r.errorMessage == NO_ARTICLES)
              && forall i :: r.count <= i < MAX_ARTICLES ==> r.articles[i] == d.articles[i]
  {
    match BodyStart(buf)
    case None => d.(state := Error, errorMessage := INVALID_RESPONSE)
    case Some(j) =>
      if StrStr(buf, j, STATUS_ERROR).Some? then ErrorParsed(d, buf, j)
      else
        var r := Articles(buf, j, d.(count := 0));
        if r.count > 0 then r.(state := Success) else r.(state := Error, errorMessage := NO_ARTICLES)
  }

  /**
   * A title written between quotes is copied raw, cut to 128 bytes, into
   * the next slot, and the scan resumes just past its closing quote.
   */
  lemma TitleCopiedRaw(buf: seq<byte>, sp: nat, d: NewsData, p: nat, v: seq<byte>)
    requires |d.articles| == MAX_ARTICLES && d.count < MAX_ARTICLES
    requires StrStr(buf, sp, TITLE_KEY) == Some(p)
    requires NoNul(v) && forall i :: 0 <= i < |v| ==> v[i] != QUOTE
    requires StartsAt(buf, p + 9, v + [QUOTE])
    ensures var s := NextArticle(buf, sp, d);
            s.Next? && s.at == p + 9 + |v| + 1
            && s.d.articles[d.count].title == v[..Min(|v|, TITLE_MAX)]
  {
    var t := p + 9;
    StartsAtSplit(buf, t, v, [QUOTE]);
    assert buf[t + |v|] == buf[t + |v|..t + |v| + 1][0];
    QuoteAt(buf, t, v);
    NextArticleTitle(buf, sp, d, p, t + |v|);
    var k := Min(|v|, TITLE_MAX);
    assert buf[t..t + k] == v[..k];
  }

  /** With the title key at p and its closing quote at e, the title is the bytes between, cut to 128. */
  lemma NextArticleTitle(buf: seq<byte>, sp: nat, d: NewsData, p: nat, e: nat)
    requires |d.articles| == MAX_ARTICLES && d.count < MAX_ARTICLES
    requires StrStr(buf, sp, TITLE_KEY) == Some(p) && StrChr(buf, p + 9, QUOTE) == Some(e)
    ensures var s := NextArticle(buf, sp, d);
            s.Next? && s.at == e + 1 && s.d.articles[d.count].title == buf[p + 9..p + 9 + Min(e - (p + 9), TITLE_MAX)]
  {
    var a := Titled(d.articles[d.count], buf, p + 9, e);
    var next := d.(articles := d.articles[d.count := a], count := d.count + 1);
    assert NextArticle(buf, sp, d) == Next(e + 1, next);
    assert next.articles[d.count] == a;
  }

  /** Without a "name" key in the 200 bytes after the title start, the slot keeps its old source. */
  lemma FarSourceIgnored(buf: seq<byte>, t: nat, previous: seq<byte>)
    requires forall n :: t <= n < t + SOURCE_WINDOW ==> !StartsAt(buf, n, NAME_KEY)
    ensures SourceNear(buf, t, previous) == previous
  {
  }

  /** The error branch copies the quoted message, cut to 127 bytes. */
  lemma ErrorParsedCarriesMessage(d: NewsData, buf: seq<byte>, j: nat, k: nat, v: seq<byte>)
    requires StrStr(buf, j, MESSAGE_KEY) == Some(k)
    requires NoNul(v) && forall i :: 0 <= i < |v| ==> v[i] != QUOTE
    requires StartsAt(buf, k + 11, v + [QUOTE])
    ensures ErrorParsed(d, buf, j).errorMessage == v[..Min(|v|, ERROR_MAX)]
  {
    QuotedValue(buf, k + 11, v, ERROR_MAX);
  }

  /** A "status":"error" reply carries its message, cut to the 127 bytes error_message holds. */
  lemma ErrorReplyCarriesMessage(d: NewsData, buf: seq<byte>, j: nat, k: nat, v: seq<byte>)
    requires Shaped(d)
    requires BodyStart(buf) == Some(j) && StrStr(buf, j, STATUS_ERROR).Some?
    requires StrStr(buf, j, MESSAGE_KEY) == Some(k)
    requires NoNul(v) && forall i :: 0 <= i < |v| ==> v[i] != QUOTE
    requires StartsAt(buf, k + 11, v + [QUOTE])
    ensures NewsParsed(d, buf).state == Error
    ensures NewsParsed(d, buf).errorMessage == v[..Min(|v|, ERROR_MAX)]
    ensures NewsParsed(d, buf).count == d.count
  {
    assert NewsParsed(d, buf) == ErrorParsed(d, buf, j);
    ErrorParsedCarriesMessage(d, buf, j, k, v);
  }

  /** One pass of the article loop of parse_news_response. */
  method ArticleStep(buf: seq<byte>, sp: nat, d: NewsData) returns (s: NewsStep)
    requires |d.articles| == MAX_ARTICLES && d.count < MAX_ARTICLES
    ensures s == NextArticle(buf, sp, d)
  {
    var p := StrStr(buf, sp, TITLE_KEY);
    if p.None? {
      return Stop;
    }
    var t := p.value + 9;
    var e := StrChr(buf, t, QUOTE);
    if e.None? {
      return Stop;
    }
    var titleLen := Min(e.value - t, TITLE_MAX);
    var a := d.articles[d.count];
    a := a.(title := buf[t..t + titleLen], source := SourceNear(buf, t, a.source));
    s := Next(e.value + 1, d.(articles := d.articles[d.count := a], count := d.count + 1));
  }

  /** The article loop of parse_news_response: at most ten passes, each resuming past a title. */
  method ScanArticles(buf: seq<byte>, start: nat, d0: NewsData) returns (d: NewsData)
    requires |d0.articles| == MAX_ARTICLES && d0.count <= MAX_ARTICLES
    ensures d == Articles(buf, start, d0)
  {
    var sp := start;
    d := d0;
    while d.count < MAX_ARTICLES
      invariant |d.articles| == MAX_ARTICLES && d.count <= MAX_ARTICLES
      invariant Articles(buf, sp, d) == Articles(buf, start, d0)
      decreases |buf| - sp
    {
      var s := ArticleStep(buf, sp, d);
      if s.Stop? {
        break;
      }
      sp, d := s.at, s.d;
    }
  }

  /** parse_news_response, with the article loop as a loop. */
  method ParseNewsResponse(d: NewsData, buf: seq<byte>) returns (r: NewsData)
    requires Shaped(d)
    ensures r == NewsParsed(d, buf)
  {
    var j := BodyStart(buf);
    if j.None? {
      return d.(state := Error, errorMessage := INVALID_RESPONSE);
    }
    if StrStr(buf, j.value, STATUS_ERROR).Some? {
      return ErrorParsed(d, buf, j.value);
    }
    r := ScanArticles(buf, j.value, d.(count := 0));
    if r.count > 0 {
      r := r.(state := Success);
    } else {
      r := r.(state := Error, errorMessage := NO_ARTICLES);
    }
  }

  // ---------------------------------------------------------------------
  // The client
  // ---------------------------------------------------------------------

  /** The GET request news_api_fetch_headlines formats into g_request_buffer. */
  function NewsRequest(country: seq<byte>, apiKey: seq<byte>): (r: seq<byte>)
    ensures |r| < REQUEST_SIZE
  {
    Truncated(HEADLINES_PATH + country + KEY_PARAM + apiKey + NEWS_TAIL, REQUEST_SIZE)
  }

  function Failed(d: NewsData, message: seq<byte>): (r: NewsData)
    ensures r.state == Error && r.errorMessage == message && r.articles == d.articles && r.count == d.count
  {
    d.(state := Error, errorMessage := message)
  }

  /** What news_dns_found does to the data once an address is known. */
  function Connecting(d: NewsData, pcbOk: bool, connectOk: bool): NewsData
  {
    if !pcbOk then Failed(d, NO_CONNECTION)
    else if !connectOk then Failed(d, CONNECTION_FAILED)
    else d
  }

  class NewsClient {
    /** g_response_buffer; g_response_len is len. */
    const buffer: array<byte>
    var len: nat
    /** g_news_data. */
    var data: NewsData
    /** The C string in g_request_buffer. */
    var request: seq<byte>
    /** g_tcp_pcb != NULL. */
    var pcbOpen: bool
    /** Every request handed to tcp_write, in order. */
    var sent: seq<seq<byte>>

    /**
     * The held bytes are followed by a terminator, the data keeps its shape,
     * and no description is ever filled in.
     */
    ghost predicate Valid()
      reads this, buffer
    {
      buffer.Length == RESPONSE_SIZE && len < RESPONSE_SIZE && buffer[len] == 0
      && Shaped(data)
      && forall i :: 0 <= i < MAX_ARTICLES ==> data.articles[i].description == []
    }

    /** The zero-initialised statics followed by news_api_init. */
    constructor ()
      ensures Valid() && fresh(buffer)
      ensures data == Zeroed() && len == 0 && buffer[..] == seq(RESPONSE_SIZE, _ => 0)
      ensures request == [] && !pcbOpen && sent == []
    {
      buffer := new byte[RESPONSE_SIZE](_ => 0);
      len := 0;
      data := Zeroed();
      request := [];
      pcbOpen := false;
      sent := [];
      new;
      assert buffer[..] == seq(RESPONSE_SIZE, _ => 0);
    }

    /** news_api_init: the data is zeroed and IDLE; the buffer and the connection are left as they are. */
    method Init()
      requires Valid()
      modifies this
      ensures Valid() && data == Zeroed()
      ensures len == old(len) && request == old(request) && pcbOpen == old(pcbOpen) && sent == old(sent)
    {
      data := Zeroed();
    }

    /** memset(g_response_buffer, 0, sizeof(g_response_buffer)). */
    method Clear()
      modifies buffer
      ensures buffer[..] == seq(buffer.Length, _ => 0)
    {
      var i := 0;
      while i < buffer.Length
        invariant 0 <= i <= buffer.Length
        invariant forall j :: 0 <= j < i ==> buffer[j] == 0
      {
        buffer[i] := 0;
        i := i + 1;
      }
      assert buffer[..] == seq(buffer.Length, _ => 0);
    }

    /**
     * news_api_fetch_headlines: nothing happens while a fetch is running;
     * otherwise FETCHING, count 0, an empty zeroed buffer, the request, and
     * the lookup (a cached address connects at once).
     */
    method FetchHeadlines(apiKey: seq<byte>, country: seq<byte>, lookup: Lookup, pcbOk: bool, connectOk: bool)
      requires Valid()
      requires NoNul(apiKey) && NoNul(country)
      modifies this, buffer
      ensures Valid()
      ensures old(data.state) == Fetching ==>
                data == old(data) && len == old(len) && buffer[..] == old(buffer[..])
                && request == old(request) && pcbOpen == old(pcbOpen)
      ensures old(data.state) != Fetching ==>
                len == 0 && buffer[..] == seq(RESPONSE_SIZE, _ => 0)
                && request == NewsRequest(country, apiKey)
                && var fetching := old(data).(state := Fetching, count := 0);
                   (lookup == Cached ==> data == Connecting(fetching, pcbOk, connectOk) && pcbOpen == (pcbOk && connectOk))
                   && (lookup == InProgress ==> data == fetching && pcbOpen == old(pcbOpen))
                   && (lookup == LookupFailed ==> data == Failed(fetching, DNS_FAILED) && pcbOpen == old(pcbOpen))
      ensures sent == old(sent)
    {
      if data.state == Fetching {
        return;
      }
      data := data.(state := Fetching, count := 0);
      len := 0;
      Clear();
      request := NewsRequest(country, apiKey);
      if lookup == Cached {
        OnDnsFound(true, pcbOk, connectOk);
      } else if lookup == LookupFailed {
        data := Failed(data, DNS_FAILED);
      }
    }

    /**
     * news_dns_found: with an address a new connection is created and
     * connected (an open one is not closed first); without one, "DNS lookup
     * failed".
     */
    method OnDnsFound(resolved: bool, pcbOk: bool, connectOk: bool)
      requires Valid()
      modifies this
      ensures Valid()
      ensures resolved ==> data == Connecting(old(data), pcbOk, connectOk) && pcbOpen == (pcbOk && connectOk)
      ensures !resolved ==> data == Failed(old(data), DNS_FAILED) && pcbOpen == old(pcbOpen)
      ensures len == old(len) && request == old(request) && sent == old(sent)
    {
      if resolved {
        if pcbOk {
          pcbOpen := connectOk;
          if !connectOk {
            data := Failed(data, CONNECTION_FAILED);
          }
        } else {
          pcbOpen := false;
          data := Failed(data, NO_CONNECTION);
        }
      } else {
        data := Failed(data, DNS_FAILED);
      }
    }

    /** tcp_client_connected: a connection error, or the request written (or "Failed to send request"). */
    method OnConnected(connectOk: bool, writeOk: bool)
      requires Valid()
      modifies this
      ensures Valid()
      ensures !connectOk ==> data == Failed(old(data), CONNECTION_ERROR) && sent == old(sent)
      ensures connectOk && writeOk ==> data == old(data) && sent == old(sent) + [request]
      ensures connectOk && !writeOk ==> data == Failed(old(data), REQUEST_NOT_SENT) && sent == old(sent)
      ensures len == old(len) && request == old(request) && pcbOpen == old(pcbOpen)
    {
      if !connectOk {
        data := Failed(data, CONNECTION_ERROR);
      } else if writeOk {
        sent := sent + [request];
      } else {
        data := Failed(data, REQUEST_NOT_SENT);
      }
    }

    /**
     * tcp_client_recv with a segment: as much of it as keeps the length at
     * most 4095 is appended, and a terminator follows.
     */
    method OnData(bytes: seq<byte>)
      requires Valid()
      modifies this, buffer
      ensures Valid()
      ensures len == old(len) + Min(|bytes|, RESPONSE_SIZE - 1 - old(len))
      ensures buffer[..len] == old(buffer[..len]) + bytes[..len - old(len)]
      ensures buffer[len] == 0 && buffer[len + 1..] == old(buffer[..])[len + 1..]
      ensures data == old(data) && request == old(request) && pcbOpen == old(pcbOpen) && sent == old(sent)
    {
      var start := len;
      var n := Min(|bytes|, RESPONSE_SIZE - 1 - start);
      var i := 0;
      while i < n
        modifies buffer
        invariant 0 <= i <= n
        invariant forall j :: 0 <= j < buffer.Length && !(start <= j < start + i) ==> buffer[j] == old(buffer[j])
        invariant forall j :: 0 <= j < i ==> buffer[start + j] == bytes[j]
      {
        buffer[start + i] := bytes[i];
        i := i + 1;
      }
      assert buffer[..start + n] == old(buffer[..start]) + bytes[..n];
      len := start + n;
      buffer[len] := 0;
    }

    /** tcp_client_recv with an error: "Receive error"; the buffer is untouched. */
    method OnReceiveError()
      requires Valid()
      modifies this
      ensures Valid() && data == Failed(old(data), RECEIVE_ERROR)
      ensures len == old(len) && request == old(request) && pcbOpen == old(pcbOpen) && sent == old(sent)
    {
      data := Failed(data, RECEIVE_ERROR);
    }

    /**
     * tcp_client_recv with no segment (the server closed): the response is
     * parsed when any bytes are held. The length is not reset.
     */
    method OnClose()
      requires Valid()
      modifies this
      ensures Valid()
      ensures data == if old(len) > 0 then NewsParsed(old(data), buffer[..]) else old(data)
      ensures !pcbOpen && len == old(len) && request == old(request) && sent == old(sent)
    {
      pcbOpen := false;
      if len > 0 {
        data := ParseNewsResponse(data, buffer[..]);
      }
    }

    /** tcp_client_err: lwIP has freed the connection; "Network error". */
    method OnTcpError()
      requires Valid()
      modifies this
      ensures Valid() && data == Failed(old(data), NETWORK_ERROR) && !pcbOpen
      ensures len == old(len) && request == old(request) && sent == old(sent)
    {
      data := Failed(data, NETWORK_ERROR);
      pcbOpen := false;
    }
  }
}
