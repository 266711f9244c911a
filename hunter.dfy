/** The Hunter adapter of `MCP_Hunter_Server/mcp_hunter_server.go`: the
    client and its request parameters, the `code != 200` failure test, and
    the `hunter_search` handler that defaults its arguments, searches and
    renders the assets. */
module Hunter {
  import opened Outcomes
  import Base64
  import opened Text
  import opened Params

  const BaseURL: string := "https://hunter.qianxin.com/openApi/search"
  const DefaultPage: int := 1
  const DefaultSize: int := 20
  const DefaultIsWeb: int := 1   // web assets only
  const SuccessCode: int := 200

  /** `HunterClient`: the API key and the search endpoint, fixed once built. */
  datatype HunterClient = HunterClient(apiKey: string, baseURL: string)

  /** One element of `data.arr`: a JSON object whose `ip`, `port` and
      `web_title` are given already rendered as text, or anything else. */
  datatype Item = Asset(ip: string, port: string, webTitle: string) | NotAnObject

  /** `ResultData`: the page of assets and the backend's total. */
  datatype ResultData = ResultData(
    total: int,
    time: int,
    arr: seq<Item>,
    consumeQuota: string,
    restQuota: string)

  /** The decoded JSON envelope; `data` is None when the body had none. */
  datatype SearchResult = SearchResult(code: int, message: string, data: Option<ResultData>)

  /** The arguments of the `hunter_search` tool; the query as its bytes. */
  datatype SearchArguments = SearchArguments(
    query: seq<Base64.byte>,
    page: int,
    size: int,
    isWeb: int,
    startTime: string,
    endTime: string)

  /** `NewHunterClient`: keeps the key as given and points at Hunter's search endpoint. */
  function NewHunterClient(apiKey: string): (c: HunterClient)
    ensures c.apiKey == apiKey
    ensures c.baseURL == "https://hunter.qianxin.com/openApi/search"
  {
    HunterClient(apiKey, BaseURL)
  }

  /** `base64URLEncode`: the padded URL and filename safe Base64 (section 5
      of RFC 4648) of the query's bytes. */
  function Base64URLEncode(query: seq<Base64.byte>): (s: string)
    ensures Base64.Decode(Base64.UrlSafe, s) == Some(query)
    ensures |s| == 4 * ((|query| + 2) / 3)
    ensures '+' !in s && '/' !in s
  {
    Base64.RoundTrip(Base64.UrlSafe, query);
    Base64.UrlSafeCharacters(query);
    Base64.Encode(Base64.UrlSafe, query)
  }

  /** Hunter's encoding of a query is the standard encoding FOFA would send
      with `+` turned into `-` and `/` into `_`; nothing else differs. */
  lemma EncodingMatchesStandard(query: seq<Base64.byte>)
    ensures |Base64URLEncode(query)| == |Base64.Encode(Base64.Standard, query)|
    ensures forall i :: 0 <= i < |Base64URLEncode(query)| ==>
      Base64URLEncode(query)[i] == Base64.ToUrlSafe(Base64.Encode(Base64.Standard, query)[i])
  {
    Base64.UrlSafeIsTranslatedStandard(query);
  }

  /** The handler's defaulting: page, size and is_web of exactly 0 are
      replaced; any other value, a negative one included, is kept. */
  function Defaulted(args: SearchArguments): (d: SearchArguments)
    ensures d.query == args.query && d.startTime == args.startTime && d.endTime == args.endTime
    ensures args.page == 0 ==> d.page == DefaultPage
    ensures args.page != 0 ==> d.page == args.page
    ensures args.size == 0 ==> d.size == DefaultSize
    ensures args.size != 0 ==> d.size == args.size
    ensures args.isWeb == 0 ==> d.isWeb == DefaultIsWeb
    ensures args.isWeb != 0 ==> d.isWeb == args.isWeb
    ensures d.page != 0 && d.size != 0 && d.isWeb != 0
  {
    args.(page := if args.page == 0 then DefaultPage else args.page,
          size := if args.size == 0 then DefaultSize else args.size,
          isWeb := if args.isWeb == 0 then DefaultIsWeb else args.isWeb)
  }

  /** Defaulting twice is defaulting once. */
  lemma DefaultedIdempotent(args: SearchArguments)
    ensures Defaulted(Defaulted(args)) == Defaulted(args)
  {
  }

  /** Arguments with non-zero page, size and is_web are left untouched. */
  lemma DefaultedKeepsNonZero(args: SearchArguments)
    requires args.page != 0 && args.size != 0 && args.isWeb != 0
    ensures Defaulted(args) == args
  {
  }

  /** The parameters `Search` adds, from their values already rendered as
      text: the five fixed ones, then each time bound that is not empty. */
  function Parameters(apiKey: string, search: string, page: string, pageSize: string, isWeb: string,
                      startTime: string, endTime: string): (p: Values)
    ensures {"api-key", "search", "page", "page_size", "is_web"} <= p.Keys
    ensures "start_time" in p <==> startTime != ""
    ensures "end_time" in p <==> endTime != ""
  {
    var fixed := map[ "api-key" := [apiKey], "search" := [search], "page" := [page],
                      "page_size" := [pageSize], "is_web" := [isWeb] ];
    var withStart := if startTime != "" then fixed["start_time" := [startTime]] else fixed;
    if endTime != "" then withStart["end_time" := [endTime]] else withStart
  }

  /** The request `Search` issues: the client's endpoint with the query
      encoded and the numbers in decimal. */
  function SearchRequest(client: HunterClient, query: seq<Base64.byte>, page: int, size: int, isWeb: int,
                         startTime: string, endTime: string): (r: Request)
    ensures r.prefix == client.baseURL + "?"
    ensures "search" in r.params && r.params["search"] == [Base64URLEncode(query)]
  {
    Request(client.baseURL + "?",
      Parameters(client.apiKey, Base64URLEncode(query), Decimal(page), Decimal(size), Decimal(isWeb),
                 startTime, endTime))
  }

  /** The five fixed keys are always there, each with one value; a time
      bound is sent if and only if it is not empty, and then as given. */
  lemma SearchRequestKeys(client: HunterClient, query: seq<Base64.byte>, page: int, size: int, isWeb: int,
                          startTime: string, endTime: string)
    ensures var p := SearchRequest(client, query, page, size, isWeb, startTime, endTime).params;
      && {"api-key", "search", "page", "page_size", "is_web"} <= p.Keys
      && p.Keys <= {"api-key", "search", "page", "page_size", "is_web", "start_time", "end_time"}
      && ("start_time" in p <==> startTime != "")
      && ("end_time" in p <==> endTime != "")
      && (forall k :: k in p ==> |p[k]| == 1)
  {
  }

  /** Each parameter reads back as the value it was built from. */
  lemma ParametersValues(apiKey: string, search: string, page: string, pageSize: string, isWeb: string,
                         startTime: string, endTime: string)
    ensures var p := Parameters(apiKey, search, page, pageSize, isWeb, startTime, endTime);
      && Get(p, "api-key") == apiKey && Get(p, "search") == search
      && Get(p, "page") == page && Get(p, "page_size") == pageSize && Get(p, "is_web") == isWeb
      && Get(p, "start_time") == startTime && Get(p, "end_time") == endTime
  {
    var fixed := map[ "api-key" := [apiKey], "search" := [search], "page" := [page],
                      "page_size" := [pageSize], "is_web" := [isWeb] ];
    var withStart := if startTime != "" then fixed["start_time" := [startTime]] else fixed;
    assert Get(withStart, "start_time") == startTime;
  }

  /** What each parameter carries: the key unchanged, the query recoverable
      from `search`, the numbers as decimal text that reads back, and the
      time bounds as given. */
  lemma SearchRequestValues(client: HunterClient, query: seq<Base64.byte>, page: int, size: int, isWeb: int,
                            startTime: string, endTime: string)
    ensures var p := SearchRequest(client, query, page, size, isWeb, startTime, endTime).params;
      && Get(p, "api-key") == client.apiKey
      && Base64.Decode(Base64.UrlSafe, Get(p, "search")) == Some(query)
      && ParseDecimal(Get(p, "page")) == Some(page)
      && ParseDecimal(Get(p, "page_size")) == Some(size)
      && ParseDecimal(Get(p, "is_web")) == Some(isWeb)
      && Get(p, "start_time") == startTime
      && Get(p, "end_time") == endTime
  {
    ParametersValues(client.apiKey, Base64URLEncode(query), Decimal(page), Decimal(size), Decimal(isWeb),
                     startTime, endTime);
    DecimalRoundTrip(page);
    DecimalRoundTrip(size);
    DecimalRoundTrip(isWeb);
  }

  /** A client built by `NewHunterClient` sends to Hunter's search endpoint. */
  lemma SearchRequestURL(apiKey: string, query: seq<Base64.byte>, page: int, size: int, isWeb: int,
                         startTime: string, endTime: string)
    ensures SearchRequest(NewHunterClient(apiKey), query, page, size, isWeb, startTime, endTime).prefix
      == "https://hunter.qianxin.com/openApi/search?"
  {
  }

  /** The `result.Code != 200` test: only code 200 is a result, every other
      code a failure carrying `message`. */
  function CheckCode(r: SearchResult): (o: Result<SearchResult>)
    ensures o.Ok? <==> r.code == 200
    ensures o.Ok? ==> o.value == r
    ensures o.Err? ==> o.failure == BackendError(r.message)
  {
    if r.code != SuccessCode then Err(BackendError(r.message)) else Ok(r)
  }

  /** The parameter building of `HunterClient.Search`: one `Add` at a
      time, the time bounds only when they are set. */
  method AddParameters(apiKey: string, search: string, page: string, pageSize: string, isWeb: string,
                       startTime: string, endTime: string)
    returns (params: Values)
    ensures params == Parameters(apiKey, search, page, pageSize, isWeb, startTime, endTime)
  {
    params := map[];
    params := Add(params, "api-key", apiKey);
    params := Add(params, "search", search);
    params := Add(params, "page", page);
    params := Add(params, "page_size", pageSize);
    params := Add(params, "is_web", isWeb);
    if startTime != "" {
      params := Add(params, "start_time", startTime);
    }
    if endTime != "" {
      params := Add(params, "end_time", endTime);
    }
  }

  /** `HunterClient.Search`: builds the parameters, sends the one request,
      and rejects a response whose code is not 200. */
  method Search(client: HunterClient, query: seq<Base64.byte>, page: int, size: int, isWeb: int,
                startTime: string, endTime: string, fetch: Request -> Reply<SearchResult>)
    returns (result: Result<SearchResult>)
    ensures var reply := fetch(SearchRequest(client, query, page, size, isWeb, startTime, endTime));
      && (!reply.Decoded? ==> result == Receive(reply))
      && (reply.Decoded? ==> result == CheckCode(reply.body))
  {
    var params := AddParameters(client.apiKey, Base64URLEncode(query), Decimal(page), Decimal(size),
                                Decimal(isWeb), startTime, endTime);
    var decoded := Receive(fetch(Request(client.baseURL + "?", params)));
    if decoded.Err? {
      return decoded;
    }
    result := CheckCode(decoded.value);
  }

  /** The two things the handler dereferences without checking: `data`
      and every element of `arr` as an object. */
  predicate AllAssets(arr: seq<Item>)
  {
    forall i :: 0 <= i < |arr| ==> arr[i].Asset?
  }

  predicate Printable(r: SearchResult)
  {
    r.code == SuccessCode ==> r.data.Some? && AllAssets(r.data.value.arr)
  }

  /** One report line: the three labelled fields of an asset. */
  function ItemLine(item: Item): (line: string)
    requires item.Asset?
    ensures "IP: " + item.ip <= line
    ensures |line| > 0 && line[|line| - 1] == '\n'
    ensures |line| == |item.ip| + |item.port| + |item.webTitle| + 19
  {
    "IP: " + item.ip + " | 端口: " + item.port + " | 标题: " + item.webTitle + "\n"
  }

  /** The lines of all assets, in their original order. */
  function Lines(arr: seq<Item>): string
    requires AllAssets(arr)
    decreases |arr|
  {
    if |arr| == 0 then "" else ItemLine(arr[0]) + Lines(arr[1..])
  }

  /** The report: a header stating the backend's total, then one line per asset. */
  function ReportText(total: int, arr: seq<Item>): string
    requires AllAssets(arr)
  {
    Header(total) + Lines(arr)
  }

  /** The lines of two runs of assets are the lines of the first run
      followed by those of the second: nothing is reordered. */
  lemma {:induction false} LinesAppend(a: seq<Item>, b: seq<Item>)
    requires AllAssets(a) && AllAssets(b)
    ensures AllAssets(a + b)
    ensures Lines(a + b) == Lines(a) + Lines(b)
    decreases |a|
  {
    if |a| == 0 {
      assert a + b == b;
    } else {
      assert AllAssets(a[1..]);
      assert (a + b)[1..] == a[1..] + b;
      LinesAppend(a[1..], b);
    }
  }

  /** The header depends on the total alone, never on how many assets follow. */
  lemma HeaderIgnoresAssets(total: int, a: seq<Item>, b: seq<Item>)
    requires AllAssets(a) && AllAssets(b)
    ensures Header(total) <= ReportText(total, a)
    ensures ReportText(total, a)[..|Header(total)|] == ReportText(total, b)[..|Header(total)|]
  {
  }

  /** The only count a report's first line states is the backend's total,
      whatever `arr` holds. */
  lemma ReportStatesTotal(total: int, arr: seq<Item>, n: int)
    requires AllAssets(arr)
    requires Header(n) <= ReportText(total, arr)
    ensures n == total
  {
    HeaderUnique(n, total, ReportText(total, arr));
  }

  /** When no field holds a newline, the report has exactly one line more
      than there are assets. */
  lemma ReportLineCount(total: int, arr: seq<Item>)
    requires AllAssets(arr)
    requires forall i :: 0 <= i < |arr| ==>
      '\n' !in arr[i].ip && '\n' !in arr[i].port && '\n' !in arr[i].webTitle
    ensures Count(ReportText(total, arr), '\n') == |arr| + 1
  {
    HeaderIsOneLine(total);
    CountAppend(Header(total), Lines(arr), '\n');
    LinesCount(arr);
  }

  lemma {:induction false} LinesCount(arr: seq<Item>)
    requires AllAssets(arr)
    requires forall i :: 0 <= i < |arr| ==>
      '\n' !in arr[i].ip && '\n' !in arr[i].port && '\n' !in arr[i].webTitle
    ensures Count(Lines(arr), '\n') == |arr|
    decreases |arr|
  {
    if |arr| > 0 {
      var it := arr[0];
      var body := "IP: " + it.ip + " | 端口: " + it.port + " | 标题: " + it.webTitle;
      assert ItemLine(it) == body + "\n";
      assert '\n' !in body;
      CountAppend(body, "\n", '\n');
      CountAppend(ItemLine(it), Lines(arr[1..]), '\n');
      LinesCount(arr[1..]);
    }
  }

  /** The handler's report loop: the header with `data.total`, then one
      line per asset of `data.arr`. */
  method Report(data: ResultData) returns (text: string)
    requires AllAssets(data.arr)
    ensures text == ReportText(data.total, data.arr)
  {
    var arr := data.arr;
    text := Header(data.total);
    for i := 0 to |arr|
      invariant text == Header(data.total) + Lines(arr[..i])
    {
      assert arr[..i + 1] == arr[..i] + [arr[i]];
      LinesAppend(arr[..i], [arr[i]]);
      text := text + ItemLine(arr[i]);
    }
    assert arr[..|arr|] == arr;
  }

  /** The request the `hunter_search` handler sends for `args`. */
  function SentRequest(apiKey: string, args: SearchArguments): Request
  {
    var d := Defaulted(args);
    SearchRequest(NewHunterClient(apiKey), d.query, d.page, d.size, d.isWeb, d.startTime, d.endTime)
  }

  /** The `hunter_search` handler: defaults page, size and is_web in place,
      searches once, and returns any failure of `Search` as it is, with no
      report, or else the report. */
  method Handle(apiKey: string, args: SearchArguments, fetch: Request -> Reply<SearchResult>)
    returns (out: Result<string>)
    requires var reply := fetch(SentRequest(apiKey, args)); reply.Decoded? ==> Printable(reply.body)
    ensures var reply := fetch(SentRequest(apiKey, args));
      && (reply.TransportFailed? ==> out == Err(TransportError(reply.reason)))
      && (reply.Malformed? ==> out == Err(DecodeError(reply.reason)))
      && (reply.Decoded? && reply.body.code != 200 ==> out == Err(BackendError(reply.body.message)))
      && (reply.Decoded? && reply.body.code == 200 ==>
            out == Ok(ReportText(reply.body.data.value.total, reply.body.data.value.arr)))
  {
    var arguments := args;
    if arguments.page == 0 {
      arguments := arguments.(page := DefaultPage);
    }
    if arguments.size == 0 {
      arguments := arguments.(size := DefaultSize);
    }
    if arguments.isWeb == 0 {
      arguments := arguments.(isWeb := DefaultIsWeb);
    }
    var client := NewHunterClient(apiKey);
    var result := Search(client, arguments.query, arguments.page, arguments.size, arguments.isWeb,
                         arguments.startTime, arguments.endTime, fetch);
    if result.Err? {
      return Err(result.failure);
    }
    var text := Report(result.value.data.value);
    out := Ok(text);
  }
}
