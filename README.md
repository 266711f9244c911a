# FOFA and Hunter search adapters, modelled in Dafny

The repository runs two small tool servers. `fofa_search` forwards a query
to the FOFA API and `hunter_search` forwards one to the Hunter API. Each
server handles one invocation the same way:

1. It replaces zero-valued arguments with fixed defaults.
2. It encodes the query in Base64. FOFA uses the standard alphabet and
   Hunter the URL-safe one.
3. It builds the query parameters and sends one HTTP GET.
4. It turns the backend's failure signal into an error. FOFA signals
   failure with `error`/`errmsg`, Hunter with `code != 200`/`message`.
5. It renders a text report: a header line, then one line per record.

This project models that per-backend logic and proves properties of it.
The network and JSON decoding are replaced by an abstract reply.

Modules, one per concern:

- `Outcomes` (`outcomes.dfy`): the failure kinds (transport, decode,
  backend), the result type, and the abstract reply of the HTTP + JSON
  step.
- `Base64` (`base64.dfy`): an RFC 4648 encoder parameterised by alphabet
  (section 4 standard, section 5 URL-safe), with `=` padding. Its partner
  is a decoder, with a round-trip proof.
- `Text` (`text.dfy`): `%d` rendering of integers (partner: a parser),
  `strings.Join`, character counting, and the report header
  `搜索结果(共N条):` that both handlers print.
- `Params` (`params.dfy`): `url.Values` as `map<string, seq<string>>`,
  with `Add` and `Get`.
- `Fofa` (`fofa.dfy`) and `Hunter` (`hunter.dfy`): each backend's
  client, defaulting, request building, failure check, report loop and
  handler.

Form of the model:

- The two handlers are methods. They apply the defaults by updating a
  local copy of the arguments in place, as the Go code does.
- The parameter building is a method that calls `Add` once per
  parameter. In Hunter the two time bounds are added only when set.
- The report is a method whose loop appends to an accumulated string.
- Each of these methods is proved against a specification function.
  Lemmas about those functions state what the source promises.
- The query is modelled as its bytes, because Go's `[]byte(s)` of a
  string is its bytes. Report text and parameter values are Dafny
  strings.
- The model follows the code as written, including where a reader might
  expect otherwise:
  - Defaulting fires only on exactly `0`. A negative page or size is
    sent unchanged.
  - FOFA always sends `fields`, even when it is empty.
  - A backend failure carries only the message, not a code.

## Model

| member | source | states |
|---|---|---|
| `Outcomes.Receive` | mcp_fofa_server.go:54-69 | a transport failure or an undecodable body ends the search with its own failure kind, never a backend error; only a decoded body goes on |
| `Base64.Encode` | mcp_fofa_server.go:75-77 | the encoding of n octets has length 4·⌈n/3⌉: 3 octets become 4 symbols and a final 1 or 2 octets still take 4 characters |
| `Base64.EncodeCharacters` | mcp_fofa_server.go:75-77 | every character of an encoding is a symbol of its alphabet or `=`, and `=` fills exactly the last (3 − n mod 3) mod 3 positions |
| `Base64.RoundTrip` | mcp_fofa_server.go:75-77 | decoding the encoding of any octets, in either alphabet, gives back those octets |
| `Base64.StandardCharacters` | mcp_fofa_server.go:75-77 | the standard encoding uses only `A–Z a–z 0–9 + / =` |
| `Base64.UrlSafeCharacters` | MCP_Hunter_Server/mcp_hunter_server.go:87-89 | the URL-safe encoding never contains `+` or `/` |
| `Base64.UrlSafeIsTranslatedStandard` | MCP_Hunter_Server/mcp_hunter_server.go:87-89 | the URL-safe encoding has the same length as the standard one and equals it position by position with `+`→`-` and `/`→`_` |
| `Base64.Value` | MCP_Hunter_Server/mcp_hunter_server.go:87-89 | a symbol's value is a 6-bit number whose symbol is that character; the pad has no value |
| `Text.Digits` | mcp_fofa_server.go:50-51 | the digits of a natural number are a non-empty run of decimal digits with no leading zero |
| `Text.Decimal` | mcp_fofa_server.go:50-51 | `%d` of an integer starts with `-` exactly when it is negative, and digits follow |
| `Text.DecimalRoundTrip` | mcp_fofa_server.go:50-51 | parsing the `%d` rendering of any integer gives the integer back |
| `Text.DecimalInjective` | MCP_Hunter_Server/mcp_hunter_server.go:51-53 | different integers are sent as different texts |
| `Text.Join` | mcp_fofa_server.go:122 | `strings.Join`: no elements give the empty text; otherwise the text starts with the first element and is as long as the elements plus one separator between each adjacent pair; `JoinSnoc` and `JoinAvoids` prove its order and its characters |
| `Text.JoinSnoc` | mcp_fofa_server.go:122 | joining one more cell appends the separator and that cell at the end |
| `Text.JoinAvoids` | mcp_fofa_server.go:122 | a character that is in no cell and not in the separator is not in the joined text |
| `Text.Header` | mcp_fofa_server.go:120 | the header is `搜索结果(共`, then the `%d` rendering of the count, then `条):` and a newline; `HeaderIsOneLine`, `HeaderInjective` and `HeaderUnique` prove what it states |
| `Text.HeaderIsOneLine` | mcp_fofa_server.go:120 | the header `搜索结果(共N条):` is exactly one line, ending in its newline |
| `Text.HeaderInjective` | mcp_fofa_server.go:120 | equal headers state equal counts |
| `Text.HeaderNotProperPrefix` | MCP_Hunter_Server/mcp_hunter_server.go:131 | no header is a proper prefix of another |
| `Text.HeaderUnique` | MCP_Hunter_Server/mcp_hunter_server.go:131 | two headers at the start of one text state the same count |
| `Params.Add` | mcp_fofa_server.go:46-52 | `url.Values.Add`: afterwards the key is present and its last value is the one added; `AddEffect` proves that the earlier values and every other key are kept |
| `Params.AddEffect` | mcp_fofa_server.go:46-52 | `Add` introduces only its key, appends the value after the values already there, and leaves every other key unchanged |
| `Fofa.NewFofaClient` | mcp_fofa_server.go:26-31 | the client keeps email and key as given, and its base URL is `https://fofa.info/api/v1` |
| `Fofa.Base64Encode` | mcp_fofa_server.go:75-77 | `qbase64` decodes (standard alphabet) back to the query, has length 4·⌈n/3⌉ and only `A–Z a–z 0–9 + / =` |
| `Fofa.Defaulted` | mcp_fofa_server.go:104-109 | page 0 becomes 1 and size 0 becomes 50; any other value, negatives included, is kept; query and fields are untouched |
| `Fofa.DefaultedIdempotent` | mcp_fofa_server.go:104-109 | defaulting twice gives the same arguments as defaulting once |
| `Fofa.DefaultedKeepsNonZero` | mcp_fofa_server.go:104-109 | arguments with non-zero page and size are left exactly as they are |
| `Fofa.SearchRequest` | mcp_fofa_server.go:46-54 | the request goes to the client's base URL followed by `/search/all?` and carries exactly the keys `qbase64`, `email`, `key`, `page`, `size`, `fields`; `SearchRequestValues` proves what each holds |
| `Fofa.SearchRequestKeys` | mcp_fofa_server.go:46-52 | the parameters hold exactly `qbase64`, `email`, `key`, `page`, `size`, `fields`, one value each; `fields` is sent even when empty |
| `Fofa.SearchRequestValues` | mcp_fofa_server.go:47-52 | `qbase64` decodes to the query; `email` and `key` are the client's credentials unchanged; `page` and `size` read back as the integers; `fields` is as given |
| `Fofa.SearchRequestURL` | mcp_fofa_server.go:54 | the request goes to `https://fofa.info/api/v1/search/all?` followed by the parameters |
| `Fofa.Search` | mcp_fofa_server.go:45-72 | the parameters are built by successive `Add`s; the search sends the request of `SearchRequest` and returns the reply's body or its transport/decode failure |
| `Fofa.CheckResult` | mcp_fofa_server.go:115-117 | the invocation fails exactly when `error` is set, with `errmsg` as the message; otherwise the rows go on unchanged |
| `Fofa.RowLine` | mcp_fofa_server.go:121-122 | a row becomes its cells joined by the cell separator, followed by one newline |
| `Fofa.LinesAppend` | mcp_fofa_server.go:121-123 | the lines of two runs of rows are the first run's lines followed by the second's, so rows keep their order |
| `Fofa.Report` | mcp_fofa_server.go:119-123 | the loop produces the header with the number of rows, then one line per row in order: its cells joined by space, vertical bar, space, then a newline |
| `Fofa.ReportOfNoRows` | mcp_fofa_server.go:119-123 | with no rows the output is exactly `搜索结果(共0条):` and a newline |
| `Fofa.ReportStatesRowCount` | mcp_fofa_server.go:120 | the only count the report's header can state is the number of rows returned |
| `Fofa.ReportLineCount` | mcp_fofa_server.go:119-123 | when no cell holds a newline, the report has exactly one line more than there are rows |
| `Fofa.LinesCount` | mcp_fofa_server.go:121-123 | when no cell holds a newline, the row lines contain exactly one newline per row |
| `Fofa.Handle` | mcp_fofa_server.go:102-126 | the handler defaults the arguments, sends the resulting request, and returns the transport, decode or backend (`errmsg`) failure with no report, or else exactly the report of the rows |
| `Hunter.NewHunterClient` | MCP_Hunter_Server/mcp_hunter_server.go:24-29 | the client keeps the key as given, and its base URL is `https://hunter.qianxin.com/openApi/search` |
| `Hunter.Base64URLEncode` | MCP_Hunter_Server/mcp_hunter_server.go:87-89 | `search` decodes (URL-safe alphabet) back to the query, has length 4·⌈n/3⌉, and holds no `+` or `/` |
| `Hunter.EncodingMatchesStandard` | MCP_Hunter_Server/mcp_hunter_server.go:87-89 | for one query, Hunter's encoding is FOFA's standard encoding with `+`→`-` and `/`→`_`; length and padding agree |
| `Hunter.Defaulted` | MCP_Hunter_Server/mcp_hunter_server.go:114-122 | page 0 becomes 1, size 0 becomes 20, is_web 0 becomes 1; any other value is kept; query and time bounds are untouched |
| `Hunter.DefaultedIdempotent` | MCP_Hunter_Server/mcp_hunter_server.go:114-122 | defaulting twice gives the same arguments as defaulting once |
| `Hunter.DefaultedKeepsNonZero` | MCP_Hunter_Server/mcp_hunter_server.go:114-122 | arguments with non-zero page, size and is_web are left exactly as they are |
| `Hunter.Parameters` | MCP_Hunter_Server/mcp_hunter_server.go:48-60 | `api-key`, `search`, `page`, `page_size`, `is_web` are always present; `start_time` is present exactly when the start bound is non-empty, and `end_time` exactly when the end bound is; `ParametersValues` proves what each holds |
| `Hunter.SearchRequest` | MCP_Hunter_Server/mcp_hunter_server.go:48-62 | the request goes to the client's base URL followed by `?` and its `search` value is the URL-safe Base64 of the query; `SearchRequestKeys` and `SearchRequestValues` prove the rest |
| `Hunter.SearchRequestKeys` | MCP_Hunter_Server/mcp_hunter_server.go:48-60 | `api-key`, `search`, `page`, `page_size`, `is_web` are always present; `start_time` is present exactly when it is non-empty, and so is `end_time`; no other key; one value each |
| `Hunter.ParametersValues` | MCP_Hunter_Server/mcp_hunter_server.go:48-60 | each parameter reads back as the text it was built from, and an unset time bound reads back as empty |
| `Hunter.SearchRequestValues` | MCP_Hunter_Server/mcp_hunter_server.go:48-60 | `api-key` is the key unchanged; `search` decodes to the query; `page`, `page_size`, `is_web` read back as the integers; the time bounds are as given |
| `Hunter.SearchRequestURL` | MCP_Hunter_Server/mcp_hunter_server.go:62 | the request goes to `https://hunter.qianxin.com/openApi/search?` followed by the parameters |
| `Hunter.AddParameters` | MCP_Hunter_Server/mcp_hunter_server.go:48-60 | the successive `Add`s, the time bounds only when non-empty, build exactly the parameters of `Parameters` |
| `Hunter.CheckCode` | MCP_Hunter_Server/mcp_hunter_server.go:79-83 | only code 200 yields the result; every other code yields a failure carrying `message` |
| `Hunter.Search` | MCP_Hunter_Server/mcp_hunter_server.go:47-84 | the search sends the request of `SearchRequest`; a transport/decode failure is returned as is; a decoded body passes or fails by its code |
| `Hunter.ItemLine` | MCP_Hunter_Server/mcp_hunter_server.go:134-135 | an asset line starts with `IP: ` and the IP, ends in one newline, and is as long as the three fields plus the fixed labels |
| `Hunter.LinesAppend` | MCP_Hunter_Server/mcp_hunter_server.go:132-136 | the lines of two runs of assets are the first run's lines followed by the second's, so assets keep their order |
| `Hunter.HeaderIgnoresAssets` | MCP_Hunter_Server/mcp_hunter_server.go:131 | the report starts with the header of the total, and that opening is the same whatever assets follow |
| `Hunter.ReportStatesTotal` | MCP_Hunter_Server/mcp_hunter_server.go:131 | the only count the header can state is the backend-reported total, whatever the number of assets |
| `Hunter.ReportLineCount` | MCP_Hunter_Server/mcp_hunter_server.go:130-136 | when no field holds a newline, the report has exactly one line more than there are assets |
| `Hunter.LinesCount` | MCP_Hunter_Server/mcp_hunter_server.go:132-136 | when no field holds a newline, the asset lines contain exactly one newline per asset |
| `Hunter.Report` | MCP_Hunter_Server/mcp_hunter_server.go:130-136 | the loop produces the header with `data.total`, then per asset, in order, `IP: <ip>`, `端口: <port>` and `标题: <web_title>` separated by space, vertical bar, space, then a newline |
| `Hunter.Handle` | MCP_Hunter_Server/mcp_hunter_server.go:112-139 | the handler defaults the arguments, sends the resulting request, and returns any failure of `Search` as is, with no report, or else exactly the report of `data` |

## Left out

- HTTP input/output (`http.Get`, `ReadAll`, closing the body): the
  network is a parameter `fetch` from the request to an abstract reply.
  The reply is a transport failure, a malformed body, or the decoded
  envelope.
- JSON decoding: `json.Unmarshal` is a library. The decoded envelope is
  taken as input, and a decode failure is one reply variant.
- `url.Values.Encode`: its percent-encoding and key sorting are library
  code. A request is the URL prefix plus the parameter map.
- The MCP server construction, tool registration, stdio transport,
  `Serve` and the `done` channel: these are transport plumbing.
- Flag parsing and the missing-credential exit or panic at startup: they
  happen at process startup, before any invocation.
- Go's `%v`/`%s` rendering of arbitrary JSON values, including
  `%!s(<nil>)` for a missing key: a Hunter asset is given with `ip`,
  `port` and `web_title` already rendered as text.
- `fmt.Errorf(msg)` reads the backend message as a format string. The
  model passes the message through unchanged.
- Hunter.Handle: requires that a code-200 response has `data` and that
  every element of `arr` is an object. The Go code panics in both cases,
  and the model does not model the panic.
- Hunter.Report: requires every element of `arr` to be an object, for
  the same reason.
- Text.Decimal: renders unbounded integers. Every value it renders is a
  Go `int` (a tool argument, a default, `len(results)` or `data.total`)
  that nothing computes on, so the text is the same as Go's. Go's `int`
  is 32 or 64 bits by platform; the model's `int` fields
  (`SearchArguments.page` and `size` of both backends, Hunter's
  `isWeb`, `ResultData.total`) also accept values Go cannot hold.
- Text is modelled as a sequence of Unicode characters, not as UTF-8
  bytes. Only the query, which the encoders see as bytes, is modelled at
  byte level.
- The decoder in `Base64` has no counterpart in the source. It is the
  encoder's partner. It is strict about length and padding, and it does
  not model Go's tolerance of embedded newlines.
- The `mode`, `page` and `size` fields of FOFA's response, and `time`,
  `consume_quota` and `rest_quota` of Hunter's: they are kept in the
  datatypes but nothing reads them.
