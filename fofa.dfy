/** The FOFA adapter of `mcp_fofa_server.go`: the client and its request
    parameters, the `error`/`errmsg` failure flag, and the `fofa_search`
    handler that defaults its arguments, searches and renders the rows. */
module Fofa {
  import opened Outcomes
  import Base64
  import opened Text
  import opened Params

  const BaseURL: string := "https://fofa.info/api/v1"
  const DefaultPage: int := 1
  const DefaultSize: int := 50
  const CellSeparator: string := " | "

  /** `FofaClient`: the credentials and the API root, fixed once built. */
  datatype FofaClient = FofaClient(email: string, key: string, baseURL: string)

  /** The decoded JSON envelope of `/search/all`. */
  datatype SearchResult = SearchResult(
    error: bool,
    errMsg: string,
    mode: string,
    page: int,
    size: int,
    results: seq<seq<string>>)

  /** The arguments of the `fofa_search` tool; the query as its bytes. */
  datatype SearchArguments = SearchArguments(
    query: seq<Base64.byte>,
    page: int,
    size: int,
    fields: string)

  /** `NewFofaClient`: keeps the credentials as given and points at FOFA's v1 API. */
  function NewFofaClient(email: string, key: string): (c: FofaClient)
    ensures c.email == email && c.key == key
    ensures c.baseURL == "https://fofa.info/api/v1"
  {
    FofaClient(email, key, BaseURL)
  }

  /** `base64Encode`: the padded standard Base64 (section 4 of RFC 4648)
      of the query's bytes. */
  function Base64Encode(query: seq<Base64.byte>): (s: string)
    ensures Base64.Decode(Base64.Standard, s) == Some(query)
    ensures |s| == 4 * ((|query| + 2) / 3)
    ensures forall c :: c in s ==>
      ('A' <= c <= 'Z') || ('a' <= c <= 'z') || ('0' <= c <= '9') || c == '+' || c == '/' || c == '='
  {
    Base64.RoundTrip(Base64.Standard, query);
    Base64.StandardCharacters(query);
    Base64.Encode(Base64.Standard, query)
  }

  /** The handler's defaulting: a page or size of exactly 0 is replaced;
      any other value, a negative one included, is kept. */
  function Defaulted(args: SearchArguments): (d: SearchArguments)
    ensures d.query == args.query && d.fields == args.fields
    ensures args.page == 0 ==> d.page == DefaultPage
    ensures args.page != 0 ==> d.page == args.page
    ensures args.size == 0 ==> d.size == DefaultSize
    ensures args.size != 0 ==> d.size == args.size
    ensures d.page != 0 && d.size != 0
  {
    args.(page := if args.page == 0 then DefaultPage else args.page,
          size := if args.size == 0 then DefaultSize else args.size)
  }

  /** Defaulting twice is defaulting once. */
  lemma DefaultedIdempotent(args: SearchArguments)
    ensures Defaulted(Defaulted(args)) == Defaulted(args)
  {
  }

  /** Arguments with a non-zero page and size are left untouched. */
  lemma DefaultedKeepsNonZero(args: SearchArguments)
    requires args.page != 0 && args.size != 0
    ensures Defaulted(args) == args
  {
  }

  /** The request `Search` issues: `/search/all` under the client's base
      URL, with the six parameters it adds. */
  function SearchRequest(client: FofaClient, query: seq<Base64.byte>, page: int, size: int, fields: string): (r: Request)
    ensures r.prefix == client.baseURL + "/search/all?"
    ensures r.params.Keys == {"qbase64", "email", "key", "page", "size", "fields"}
  {
    Request(client.baseURL + "/search/all?",
      map[ "qbase64" := [Base64Encode(query)],
           "email" := [client.email],
           "key" := [client.key],
           "page" := [Decimal(page)],
           "size" := [Decimal(size)],
           "fields" := [fields] ])
  }

  /** Exactly six keys, each with one value; `fields` even when it is empty. */
  lemma SearchRequestKeys(client: FofaClient, query: seq<Base64.byte>, page: int, size: int, fields: string)
    ensures var p := SearchRequest(client, query, page, size, fields).params;
      && p.Keys == {"qbase64", "email", "key", "page", "size", "fields"}
      && (forall k :: k in p ==> |p[k]| == 1)
      && p["fields"] == [fields]
  {
  }

  /** What each parameter carries: the query recoverable from `qbase64`,
      the credentials unchanged, page and size as decimal text that reads
      back as the numbers. */
  lemma SearchRequestValues(client: FofaClient, query: seq<Base64.byte>, page: int, size: int, fields: string)
    ensures var p := SearchRequest(client, query, page, size, fields).params;
      && Base64.Decode(Base64.Standard, Get(p, "qbase64")) == Some(query)
      && Get(p, "email") == client.email
      && Get(p, "key") == client.key
      && ParseDecimal(Get(p, "page")) == Some(page)
      && ParseDecimal(Get(p, "size")) == Some(size)
      && Get(p, "fields") == fields
  {
    DecimalRoundTrip(page);
    DecimalRoundTrip(size);
  }

  /** A client built by `NewFofaClient` sends to FOFA's `/search/all`. */
  lemma SearchRequestURL(email: string, key: string, query: seq<Base64.byte>, page: int, size: int, fields: string)
    ensures SearchRequest(NewFofaClient(email, key), query, page, size, fields).prefix
      == "https://fofa.info/api/v1/search/all?"
  {
  }

  /** `FofaClient.Search`: fills the parameters one `Add` at a time, then
      sends the one request; a transport or decoding failure ends the search. */
  method Search(client: FofaClient, query: seq<Base64.byte>, page: int, size: int, fields: string,
                fetch: Request -> Reply<SearchResult>)
    returns (result: Result<SearchResult>)
    ensures result == Receive(fetch(SearchRequest(client, query, page, size, fields)))
  {
    var encoded, pageText, sizeText := Base64Encode(query), Decimal(page), Decimal(size);
    var params: Values := map[];
    params := Add(params, "qbase64", encoded);
    params := Add(params, "email", client.email);
    params := Add(params, "key", client.key);
    params := Add(params, "page", pageText);
    params := Add(params, "size", sizeText);
    params := Add(params, "fields", fields);
    assert params == map["qbase64" := [encoded], "email" := [client.email], "key" := [client.key],
                         "page" := [pageText], "size" := [sizeText], "fields" := [fields]];
    result := Receive(fetch(Request(client.baseURL + "/search/all?", params)));
  }

  /** The handler's `result.Error` test: the flag alone decides, and the
      failure carries `errmsg` as the message. */
  function CheckResult(r: SearchResult): (o: Result<seq<seq<string>>>)
    ensures o.Err? <==> r.error
    ensures o.Err? ==> o.failure == BackendError(r.errMsg)
    ensures o.Ok? ==> o.value == r.results
  {
    if r.error then Err(BackendError(r.errMsg)) else Ok(r.results)
  }

  /** One report line: the cells of a row joined by " | ", then a newline. */
  function RowLine(row: seq<string>): (line: string)
    ensures |line| > 0 && line[|line| - 1] == '\n'
    ensures line[..|line| - 1] == Join(row, CellSeparator)
  {
    Join(row, CellSeparator) + "\n"
  }

  /** The lines of all rows, in their original order. */
  function Lines(rows: seq<seq<string>>): string
    decreases |rows|
  {
    if |rows| == 0 then "" else RowLine(rows[0]) + Lines(rows[1..])
  }

  /** The report: a header counting the rows returned, then one line per row. */
  function ReportText(rows: seq<seq<string>>): string
  {
    Header(|rows|) + Lines(rows)
  }

  /** The lines of two runs of rows are the lines of the first run followed
      by those of the second: rows are neither reordered nor merged. */
  lemma {:induction false} LinesAppend(a: seq<seq<string>>, b: seq<seq<string>>)
    ensures Lines(a + b) == Lines(a) + Lines(b)
    decreases |a|
  {
    if |a| == 0 {
      assert a + b == b;
    } else {
      assert (a + b)[1..] == a[1..] + b;
      LinesAppend(a[1..], b);
    }
  }

  /** With `Results` empty the report is the header line alone, stating 0. */
  lemma ReportOfNoRows()
    ensures ReportText([]) == "搜索结果(共0条):\n"
  {
    assert Decimal(0) == "0";
  }

  /** The only count a report's first line states is the number of rows
      returned. */
  lemma ReportStatesRowCount(rows: seq<seq<string>>, n: int)
    requires Header(n) <= ReportText(rows)
    ensures n == |rows|
  {
    HeaderUnique(n, |rows|, ReportText(rows));
  }

  /** When no cell holds a newline, the report has exactly one line more
      than there are rows. */
  lemma {:induction false} ReportLineCount(rows: seq<seq<string>>)
    requires forall i, j :: 0 <= i < |rows| && 0 <= j < |rows[i]| ==> '\n' !in rows[i][j]
    ensures Count(ReportText(rows), '\n') == |rows| + 1
  {
    HeaderIsOneLine(|rows|);
    CountAppend(Header(|rows|), Lines(rows), '\n');
    LinesCount(rows);
  }

  lemma {:induction false} LinesCount(rows: seq<seq<string>>)
    requires forall i, j :: 0 <= i < |rows| && 0 <= j < |rows[i]| ==> '\n' !in rows[i][j]
    ensures Count(Lines(rows), '\n') == |rows|
    decreases |rows|
  {
    if |rows| > 0 {
      var row := rows[0];
      JoinAvoids(row, CellSeparator, '\n');
      CountAppend(Join(row, CellSeparator), "\n", '\n');
      CountAppend(RowLine(row), Lines(rows[1..]), '\n');
      LinesCount(rows[1..]);
    }
  }

  /** The handler's report loop: the header, then one `Fprintln` per row. */
  method Report(rows: seq<seq<string>>) returns (text: string)
    ensures text == ReportText(rows)
  {
    text := Header(|rows|);
    for i := 0 to |rows|
      invariant text == Header(|rows|) + Lines(rows[..i])
    {
      assert rows[..i + 1] == rows[..i] + [rows[i]];
      LinesAppend(rows[..i], [rows[i]]);
      text := text + RowLine(rows[i]);
    }
    assert rows[..|rows|] == rows;
  }

  /** The request the `fofa_search` handler sends for `args`. */
  function SentRequest(email: string, key: string, args: SearchArguments): Request
  {
    var d := Defaulted(args);
    SearchRequest(NewFofaClient(email, key), d.query, d.page, d.size, d.fields)
  }

  /** The `fofa_search` handler: defaults page and size in place, searches
      once, and returns either a failure, with no report, or the report. */
  method Handle(email: string, key: string, args: SearchArguments, fetch: Request -> Reply<SearchResult>)
    returns (out: Result<string>)
    ensures var reply := fetch(SentRequest(email, key, args));
      && (reply.TransportFailed? ==> out == Err(TransportError(reply.reason)))
      && (reply.Malformed? ==> out == Err(DecodeError(reply.reason)))
      && (reply.Decoded? && reply.body.error ==> out == Err(BackendError(reply.body.errMsg)))
      && (reply.Decoded? && !reply.body.error ==> out == Ok(ReportText(reply.body.results)))
  {
    var arguments := args;
    if arguments.page == 0 {
      arguments := arguments.(page := DefaultPage);
    }
    if arguments.size == 0 {
      arguments := arguments.(size := DefaultSize);
    }
    var client := NewFofaClient(email, key);
    var result := Search(client, arguments.query, arguments.page, arguments.size, arguments.fields, fetch);
    if result.Err? {
      return Err(result.failure);
    }
    var checked := CheckResult(result.value);
    if checked.Err? {
      return Err(checked.failure);
    }
    var text := Report(result.value.results);
    out := Ok(text);
  }
}
