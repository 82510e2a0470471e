# go-freckle, modelled in Dafny

go-freckle is a small Go client for the Freckle v2 time-tracking REST API.
This project models its core in Dafny and proves properties of the model.
The core has three parts:

- **Pagination** (`pagination.go`). The client parses the `Link` header of a
  list response into a map from relation to URL (`pagelinks`). It navigates
  between pages (`has`, `HasNext`, `HasPrevious`, `Next`, `Previous`, `First`,
  `Last`, `fetch`). It also streams every item of a page and of all later
  pages (`push`, behind `AllEntries` and `AllProjects`).
- **The request layer** (`internal.go`). Setters are folded into query
  parameters and input objects (`parameters`, `inputs`). The request URL is
  built from them (`api`). Each request is authenticated, sent, and its reply
  dispatched on status (`do`, `doHttpRequest`). Error bodies are decoded
  (`parseError`).
- **The API operations** (`entries.go`, `projects.go`). Each one picks a
  method, a path, optional parameters, an optional input object and a
  callback. Listing calls fill a page through `onResponse`.

The files and modules:

| file | module | what it holds |
|---|---|---|
| `wrappers.dfy` | `Wrappers` | `Option` |
| `assoc.dfy` | `Assoc` | maps built by assigning pairs in order, as the `m[k] = v` loops do |
| `records.dfy` | `Records` | entries, projects, invoices and participants, projected onto their `Id` |
| `query.dfy` | `Query` | `url.QueryEscape` and `url.Values.Encode`: escaping, byte-order key sorting, `key=value` pieces joined by `&` |
| `link_header.dfy` | `LinkHeader` | the `<(.*?)>; rel="(.*?)"` matcher with Go RE2 semantics, and `pagelinks` |
| `transport.dfy` | `Transport` | setters, URLs, headers, `doHttpRequest`, `do`, `parseError`, `%d` paths |
| `pagination.dfy` | `Pagination` | pages, `has`, `fetch` and its four navigators, `onResponse`, `push` and the streaming trace |
| `entries.dfy` | `Entries` | the entries API |
| `projects.dfy` | `Projects` | the projects API |

How the model represents the source:

- **External services as oracles.** The HTTP client, `http.NewRequest` and
  `encoding/json` are not modelled. A client value `Freckle` carries them as
  functions:
  - `Net.reject` is the error `http.NewRequest` gives for a URL.
  - `Net.send` is the reply to a request: a failure, or a status, a `Link`
    header and a body.
  - `Json` holds one decoder per target type. Each decoder returns a value
    and an error.
  Every property below holds for every decoder and for every server whose
  reply depends only on the request.
- **Go's `(value, error)` results.** These become `Outcome(value, error)`.
- **`push` as a sequence.** The source sends each item to an unbuffered
  channel from a goroutine. The model instead returns the items delivered
  and a trace of events: `Emitted(item)` for an item sent to the channel, and
  `Fetched(url)` for an attempt to fetch a page. An attempt is recorded even
  when `http.NewRequest` rejects the URL and nothing is sent. The ordering claims are then claims
  about that trace.
- **Imperative code.** The code that mutates step by step is written as
  methods with loops. Each is proved equal to a specification function, and
  the lemmas are proved about those functions:
  - `parameters` and `inputs` become `Transport.ApplySetters`, against
    `Applied`.
  - `api` becomes `Transport.Api`, against `Url`.
  - `pagelinks` becomes `LinkHeader.PageLinks`, against `Links`.
  - `push` becomes `Pagination.Push`, against `Traverse`.
  - `doHttpRequest` and `do` become methods against `Exchange` and
    `Perform`.
- **Duplicated page code.** The source repeats the page code line for line
  for `EntriesPage` and `ProjectsPage` (`pagination.go:18-45` and `48-75`).
  Both are one generic `Page<T>`, which carries the item decoder of its
  kind.

## Model

| member | source | states |
|---|---|---|
| Assoc.FromPairsKeys | pagination.go:165-171 | after assigning pairs in order, the map's keys are exactly the keys that occur among the pairs |
| Assoc.FromPairsLastWins | pagination.go:167-171 | a key's value is the value of its last pair: a later assignment overwrites an earlier one |
| Assoc.FromPairsSnoc | pagination.go:167-171 | one more pair is one more map assignment over what the earlier pairs built |
| Query.Escape | internal.go:104-108 | `url.QueryEscape` output holds only unreserved characters, `+` and `%`, so never `&`, `=` or `?`; unreserved text is left unchanged |
| Query.SortedKeys | internal.go:104-108 | `Encode` visits the keys in byte order, each exactly once: a strictly increasing listing of exactly the set's keys |
| Query.SortedPair | internal.go:104-108 | two distinct keys are encoded smaller first |
| Query.EncodeAlphabet | internal.go:104-108 | an encoded query consists of escaped characters, `=` and `&` only |
| Query.ParameterPieces | internal.go:104-108 | parameters set one value per key encode to one `key=value` piece per parameter, both sides escaped, in increasing key order |
| LinkHeader.CloseQuote | pagination.go:166 | the lazy group `(.*?)"` ends at the first quote, and fails if a newline comes first |
| LinkHeader.UrlEnd | pagination.go:166 | the lazy group `<(.*?)>` ends at the least position from which the rest of the pattern matches, with no newline before it, and fails exactly when every such position lies after a newline |
| LinkHeader.MatchPrefix | pagination.go:166-167 | a match anchored at the start is exactly the text `<url>; rel="name"` for the reported pair, and neither group holds a newline |
| LinkHeader.MatchesOccur | pagination.go:166-170 | every reported relation stands verbatim in the header as `<url>; rel="name"` |
| LinkHeader.PageLinks | pagination.go:164-173 | `pagelinks` assigns every match's URL to its relation in match order, and yields `Links(header)` |
| LinkHeader.MatchPrefixOfEntry | pagination.go:166-167 | a well-formed entry at the start of the text is matched whole, whatever follows it |
| LinkHeader.MatchesEntry | pagination.go:166-167 | a well-formed entry at the front is reported first, and matching resumes right after it |
| LinkHeader.SkipsText | pagination.go:166-167 | text without `<` never starts a match, so the scanner passes over it |
| LinkHeader.RenderThen | pagination.go:166-167 | entries joined by separators without `<` are reported in order, followed by the matches of whatever text comes next |
| LinkHeader.MatchesRender | pagination.go:166-167 | round trip: a header rendered from well-formed relations parses back to exactly those relations, in order |
| LinkHeader.FourRelations | pagination_test.go:13-24 | a header with next, prev, first and last entries maps each relation to exactly the URL between its angle brackets, and nothing else |
| LinkHeader.NoEntryNoLinks | pagination.go:164-173 | a header with no `<`, including the empty string of a missing header, yields the empty map |
| LinkHeader.LinksAreLastMatches | pagination.go:167-171 | the map's keys are exactly the matched relation names, unknown ones included, and each maps to the URL of its last match |
| LinkHeader.JunkIsSkipped | pagination.go:166-167 | text holding no `<` between entries is skipped, not rejected: the entries before and after it are all reported |
| LinkHeader.StrayBracketJoinsNextEntry | pagination.go:166 | a stray `<` on the same line as an entry starts the match, and the stray text becomes part of that entry's URL |
| LinkHeader.StrayLineFails | pagination.go:166 | a `<` whose line holds no `>` starts no match |
| LinkHeader.NewlineIsolatesStrayBracket | pagination.go:166 | when a newline separates a stray `<` from the next entry, the entry is reported intact |
| Transport.ApplySetters | internal.go:83-98 | `parameters` and `inputs` start from an empty map and run the setters in list order |
| Transport.AppliedConcat | internal.go:83-98 | running two lists of setters one after the other is running their concatenation |
| Transport.AssignmentsBuildPairs | internal.go:83-98 | setters that only assign build the map of their pairs: a later setter for a key overwrites an earlier one, and with no setters the map is empty |
| Transport.Api | internal.go:101-111 | `api` copies the parameters into URL values key by key and yields `Url(base, path, ps)` |
| Transport.UrlWithoutParameters | internal.go:101-103 | with nil or empty parameters the URL is base and path unchanged |
| Transport.UrlQueryPieces | internal.go:101-111 | otherwise it is base, path, `?`, then one escaped `key=value` piece per parameter, in key order, joined by `&` |
| Transport.UrlOneQuestionMark | internal.go:101-111 | the query adds exactly one `?` to the URL |
| Transport.UrlTwoPlainParameters | internal.go:101-111 | two parameters that need no escaping appear verbatim as `a=x&b=y`, in key order, after a single `?` |
| Transport.AuthenticateAddsHeaders | internal.go:22-23 | the authenticated request is the two `Header.Add` calls, filed under the canonical names `User-Agent` and `X-Freckletoken` |
| Transport.AuthenticationHeaders | internal.go:22-23 | a request sent with an empty header carries the subdomain as `User-Agent` and the token as `X-FreckleToken`, and no other header; method, URL and body are untouched |
| Transport.CanonicalToken | internal.go:23 | `Header.Add` files `X-FreckleToken` under `X-Freckletoken` |
| Transport.ParseError | internal.go:72-80 | an error body that decodes gives the service error, whose text (`Error()`, freckle.go:58-60) is its message; one that does not gives the decoder's error |
| Transport.IdList | entries.go:74-77 | a variadic id list is null when the call passes no ids (a nil slice) and the list of the ids otherwise; either encodes |
| Transport.RespondDispatch | internal.go:25-46 | the callback's result is returned exactly when a response below 400 came back. A transport error is returned unchanged. Otherwise the caller's value is untouched and an error is returned. A status of 400 or more gives the service error, whose text is its message, when the body decodes, and the decoder's own error when it does not |
| Transport.IgnoredBodySucceedsIffAccepted | internal.go:42-46 | a callback that ignores the body succeeds exactly when a response below 400 came back |
| Transport.DoHttpRequest | internal.go:19-47 | `doHttpRequest` adds the two headers, sends, and dispatches on failure and status, yielding `Exchange(f, req, init, fn)` |
| Transport.PerformSends | internal.go:50-69 | a call that gets past encoding and `NewRequest` sends one authenticated request (method, built URL, inputs as body), and the reply decides its outcome. Otherwise the caller's value stays and an error is returned, `EncodeError` when the inputs cannot be marshalled |
| Transport.Do | internal.go:50-69 | `do` builds the URL, encodes the inputs only when there are any, creates the request and performs it, yielding `Perform(...)` |
| Transport.ErrorOnlyCall | internal.go:42-46 | a call whose callback ignores the body succeeds exactly when its request is sent and answered below 400 |
| Transport.DecodingCall | internal.go:42-46 | a call that decodes the body returns what the decoder makes of an accepted response, and otherwise the zero value with an error |
| Transport.Digits | entries.go:38 | `%d` of a natural number is one or more decimal digits |
| Transport.DecimalFormat | entries.go:38 | `%d` writes a `-` exactly for negative numbers, then only digits |
| Transport.DecimalRoundTrip | entries.go:38 | the `%d` text of an identifier reads back as that identifier, so different identifiers give different paths |
| Pagination.EmptyPage | pagination.go:140 | a fresh page has no relations, so neither a next nor a previous page, no items, and fetching any relation requests the empty URL; it keeps the client and the item kind |
| Pagination.Has | pagination.go:126-135 | `has` is membership of the relation in the page's links; without it, fetching the relation requests the empty URL |
| Pagination.HasNext | pagination.go:18-20 | `HasNext` is membership of `next`, and then `Next` requests that relation's URL |
| Pagination.HasPrevious | pagination.go:28-30 | `HasPrevious` is membership of `prev`, and then `Previous` requests that relation's URL |
| Pagination.OnResponse | entries.go:26-34 | `onResponse` (also projects.go:26-34) sets the page's links from the `Link` header whether or not decoding succeeds, takes whatever the decoder left as items, reports the decoder's error, and keeps client and kind |
| Pagination.FetchedPage | pagination.go:138-161 | fetching a relation yields a fresh page with the response's relations and decoded items and the decoder's error when the GET is accepted; otherwise an empty page and an error. Only the client and the item kind carry over |
| Pagination.ListedPage | entries.go:17-34 | a listing call yields the page `onResponse` filled from an accepted response, with its relations even when decoding fails and the decoder's error; otherwise the empty page, with no next page, and an error |
| Pagination.FetchWithoutRelation | pagination.go:142 | `fetch` does not consult `has`: a missing relation is a GET of the empty URL |
| Pagination.Fetch | pagination.go:138-161 | `fetch` yields `FetchPage(p, id)` |
| Pagination.Next | pagination.go:23-25 | `Next` fetches the `next` relation |
| Pagination.Previous | pagination.go:33-35 | `Previous` fetches the `prev` relation |
| Pagination.First | pagination.go:38-40 | `First` fetches the `first` relation |
| Pagination.Last | pagination.go:43-45 | `Last` fetches the `last` relation |
| Pagination.HasNextIffNextEntry | pagination.go:18-30 | a page filled from a response has a next page exactly when an entry of its `Link` header names `next`, and then maps `next` to the URL of the last such entry; likewise `HasPrevious` and the URL of the last `prev` entry |
| Pagination.SingleNextLink | entries_test.go:29-30 | a response whose `Link` header is a single `next` entry gives a page with a next page and no previous one |
| Pagination.Walker | pagination.go:100-110 | streaming delivers exactly the items its trace emits, the page's own items first, and requests at most `fuel` pages |
| Pagination.Traverse | pagination.go:100-110 | the same for `push`, whose next page is fetched over the page's own client |
| Pagination.Push | pagination.go:100-110 | `push` emits the page's items in order, then fetches the next page if there is one and pushes it, stopping silently when the fetch fails; it yields `Traverse(p, fuel)` |
| Pagination.All | pagination.go:79-86 | a consumer ranging over the channel receives exactly the items of the traversal |
| Pagination.TraverseStopsOnFailure | pagination.go:104-109 | a failed fetch of the next page ends the stream after the current page's items, with no error |
| Pagination.LastPageFetchesNothing | pagination.go:104 | a page without a next relation streams its own items and requests nothing |
| Pagination.TraverseChain | pagination.go:100-110 | on a chain of pages linked by successful fetches, streaming delivers the items of all pages in page order, with the chain's trace |
| Pagination.WalkChain | pagination.go:100-110 | the same for any way of fetching the next page |
| Pagination.ChainCounts | projects_test.go:41-65 | a chain of N pages requests N - 1 pages and delivers all their items |
| Pagination.OneItemPerPage | entries_test.go:40-63 | pages of one item each deliver as many items as there are pages |
| Pagination.FetchFollowsItsPage | pagination.go:100-110 | backpressure: the m-th request is made only after exactly the items of pages 0 to m were emitted, and it asks for page m's next page |
| Pagination.EmissionsTrace | pagination.go:101-103 | the send loop emits each item once, in order, and requests nothing |
| Entries.CreateEntryArgumentsWin | entries.go:44-50 | the date and minutes given as arguments override any setter value under those names; every other input is the setters' own |
| Entries.EmptyEntriesPage | entries.go:22-24 | an entries page with no links and no entries, so no next or previous page, over the caller's client |
| Entries.ListEntries | entries.go:17-20 | GET `/entries` with the setters' parameters, filling an entries page |
| Entries.GetEntry | entries.go:36-42 | GET `/entries/{id}`, decoding one entry |
| Entries.CreateEntry | entries.go:44-54 | POST `/entries` with the setters' inputs plus `date` and `minutes`, decoding the new entry |
| Entries.EditEntry | entries.go:56-62 | PUT `/entries/{id}` always with an input object, possibly empty, decoding the entry |
| Entries.MarkAsInvoiced | entries.go:64-72 | PUT `/entries/{id}/invoiced_outside_of_freckle` with exactly `{date}`, ignoring the body |
| Entries.MarkMultipleAsInvoiced | entries.go:74-83 | PUT `/entries/invoiced_outside_of_freckle` with exactly `{date, entry_ids}`, ids in argument order, and `entry_ids` null when no ids are passed |
| Entries.DeleteEntry | entries.go:85-90 | DELETE `/entries/{id}` without a body, ignoring the response body |
| Projects.CreateProjectNameWins | projects.go:44-47 | the name given as argument overrides a setter's; every other input is the setters' own |
| Projects.BillableFromQuery | projects_test.go:67-83 | listing with `billable=true` and `from=2014-12-18` requests `/projects?billable=true&from=2014-12-18` |
| Projects.EmptyProjectsPage | projects.go:22-24 | a projects page with no links and no projects, so no next or previous page, over the caller's client |
| Projects.ListProjects | projects.go:17-34 | GET `/projects` with the setters' parameters, filling a projects page through `onResponse` |
| Projects.GetProject | projects.go:36-42 | GET `/projects/{id}`, decoding one project |
| Projects.CreateProject | projects.go:44-53 | POST `/projects` with the setters' inputs and `name`, decoding the new project |
| Projects.GetEntries | projects.go:55-58 | GET `/projects/{id}/entries`, filling a navigable entries page |
| Projects.GetInvoices | projects.go:60-66 | GET `/projects/{id}/invoices`, decoding a plain list of invoices |
| Projects.GetParticipants | projects.go:68-74 | GET `/projects/{id}/participants`, decoding a plain list of participants |
| Projects.EditProject | projects.go:76-82 | PUT `/projects/{id}` always with an input object, decoding the project |
| Projects.MergeProject | projects.go:84-92 | PUT `/projects/{target}/merge` with exactly `{project_id: toMerge}` |
| Projects.DeleteProject | projects.go:94-99 | DELETE `/projects/{id}` without a body |
| Projects.ArchiveProject | projects.go:101-106 | PUT `/projects/{id}/archive` without a body |
| Projects.UnarchiveProject | projects.go:108-113 | PUT `/projects/{id}/unarchive` without a body |
| Projects.ArchiveMultipleProjects | projects.go:115-123 | PUT `/projects/archive` with exactly `{project_ids}`, ids in argument order, null when no ids are passed |
| Projects.UnarchiveMultipleProjects | projects.go:125-133 | PUT `/projects/unarchive` with exactly `{project_ids}`, null when no ids are passed |
| Projects.DeleteMultipleProjects | projects.go:135-143 | PUT, not DELETE, `/projects/delete` with exactly `{project_ids}`, null when no ids are passed |

## Left out

- The goroutine and unbuffered channel of `AllEntries` and `AllProjects`
  (`pagination.go:79-97`) are concurrency. Streaming is modelled as the
  sequence of delivered items and events, in the order the channel would
  see them. A consumer that stops early, which leaves the goroutine blocked
  in the source, is not modelled.
- `Pagination.Push`, `Pagination.Traverse` and `Pagination.All` take a
  `fuel` bound on the number of pages requested, because nothing in the
  source ensures that a server's chain of `next` links ends.
  `Pagination.TraverseChain` shows that on a finite chain, fuel of at least
  the number of pages minus one gives the complete stream.
- A server whose reply to the same request changes from one call to the
  next, such as one that counts the pages it served, is not modelled:
  `Net.send` is a function of the request. The streaming lemmas
  (`Pagination.TraverseChain`, `Pagination.FetchFollowsItsPage`) describe
  chains in which each page's next page is what fetching it returns.
- The HTTP client, `http.NewRequest` URL validation and reading the
  response body (`internal.go:25-34`, `63-68`, `114-121`) are foreign I/O.
  They are the `Net` oracle. A failure to read the body counts as a failed
  reply, like a failure of `client.Do`.
- `encoding/json` is not modelled. Decoding is the `Json` oracle. Encoding
  is reduced to whether the input object holds a value `json.Marshal`
  rejects; the encoded bytes are not modelled, and the body is the input
  map itself.
- Transport.Value: the values a setter or an operation can put into
  parameters or an input object are limited to text, an integer, a list of
  integers, null, a boolean, and one value `json.Marshal` rejects. A Go
  setter may store any `interface{}`; floating-point numbers, nested maps and
  other slices are not modelled, so such inputs reach the server only in the
  source.
- Record fields other than the identifier, floating-point amounts among
  them (`types.go`), are not modelled. The JSON field tags are not
  modelled either.
- Only the `Link` header is read from a response. Other headers are used
  only by debug logging.
- The Go `nil` versus empty distinction is kept where it shows: `None`
  versus `Some` for parameters and inputs, and `Transport.IdList` for the
  variadic ids of the bulk calls, which encode as null when none are passed.
- Transport.Message: the text of an encoding error is fixed as
  "json: unsupported type"; `json.Marshal` names the offending type after
  it, which the model does not track.
- Debug logging (`internal.go:124-128`) is not modelled. It has no effect
  on results.
- The constructors and options in `freckle.go` (`LetsFreckle`, `Debug`,
  `Client`) are configuration. The client value is a parameter.
- `url.QueryEscape` is modelled for the characters the query syntax needs:
  unreserved characters, space as `+`, and `%XY` for the UTF-8 bytes of
  anything else. Surrogate code points are not treated specially.
- The operations return what their callback left in the result variable.
  This is the value the Go compiler returns for `return result, f.do(...)`
  when `result` is read after the call. The language leaves that order
  unspecified.
- `textproto.CanonicalMIMEHeaderKey` is modelled for the header names it
  is given. Its special cases for keys with spaces or invalid bytes are
  reduced to leaving such names unchanged.
