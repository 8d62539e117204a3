# Short-URL service: a Dafny model

This project models the short-link core of a small URL-shortening web service
(`main.py`). The service turns a long URL into a link of the form
`http://shorter-urls.com/<token>` and redirects visitors from a token back to the
long URL. Each redirect is logged as a visit, and the service reports the number of
visits per token.

Three operations share one database object:

- **create**: the `/create/` and `/create_optional_params/` endpoints. If the URL
  already has a token, create returns that token's link. Otherwise it keeps drawing
  random tokens until it finds one that is not taken, then saves the pair.
- **resolve** (`GET /{short_url}`): looks up the URL. When found, it records one visit
  (origin, client IP, time) and yields the URL. Otherwise it fails with 404.
- **stats** (`GET /stats/{short_url}`): the number of visits logged for the token.

Layout, one module per file:

- `results.dfy` (`Results`): `Option`, `Result`, the error kinds, Python truthiness of
  an optional string, dictionary lookup.
- `text.dfy` (`Text`): the Python string operations used. These are `startswith`,
  `strip` (as runs of leading and trailing whitespace) and `split`.
- `headers.dfy` (`Headers`): the visitor origin taken from `X-Forwarded-For`.
- `validation.dfy` (`Validation`): the two input rules. One is the `http://`/`https://`
  check; the other is "URL is required".
- `store.dfy` (`Store`): the abstract database state and its invariant. The state is
  token → URL, URL → token and the visit log. The module also holds `Save`, `Record`
  and the visit count.
- `shortener.dfy` (`Shortener`): every handler as a function from a store state to a
  response and the next state, with the lemmas about them.
- `database.dfy` (`Db`): the `Database` class. Its fields are the two maps and the
  visit sequence, updated in place by its methods.
- `service.dfy` (`Service`): the handlers as methods on a `Database`. The create
  methods contain the candidate loop. Each handler is proved to match its `Shortener`
  function.

`database.py` is not part of this model. `Database` stands for it with in-memory
maps and these assumed semantics:

- `save_url` binds the token to the URL in both directions.
- `save_visit` appends one record.
- `get_stats` counts the records that name the token.

The store invariant (`Store.Valid`) says:

- The two tables are inverse to each other.
- Stored tokens and URLs are non-empty.
- Every visit names a stored token.

The handlers keep this invariant.

Behaviour of the code worth noting:

- `/create_optional_params/` does no scheme check.
- `stats` of an unknown token is not an error. Under the assumed `get_stats`
  semantics and the invariant it is 0.
- Tokens are 8 characters long: `token_urlsafe(6)` encodes 6 random bytes in base64url.
- `save_url` has no failure result. The only uniqueness check is the existence test
  before the save.

## Model

| member | source | states |
|---|---|---|
| `Validation.ValidateUrl` | main.py:14-18 | A URL is accepted, unchanged, exactly when it begins with `http://` or `https://`; otherwise the error is InvalidUrlFormat |
| `Validation.RequireUrl` | main.py:50-52 | A missing or empty URL is rejected with UrlRequired; any other string is accepted unchanged, with no scheme check |
| `Text.Strip` | main.py:35 | `strip()` returns the part of the string between its leading and trailing whitespace. The result neither starts nor ends with whitespace. |
| `Text.StripUnique` | main.py:35 | Whenever a string is whitespace + a core without outer whitespace + whitespace, Strip returns exactly that core |
| `Text.StripIdempotent` | main.py:35 | Stripping a stripped string changes nothing |
| `Text.Split` | main.py:35 | `split(",")` yields at least one piece, and no piece contains the separator |
| `Text.JoinSplit` | main.py:35 | Joining the pieces of a split with the separator gives back the original string |
| `Text.LastPieceAfterLastSep` | main.py:35 | The last piece of a split (`[-1]`) is the text after the last separator, or the whole string if there is none |
| `Headers.ForwardedOrigin` | main.py:35 | An absent header gives the empty origin. The origin never contains a comma and has no surrounding whitespace. |
| `Headers.OriginIsLastEntry` | main.py:35 | The origin is the header's last comma-separated entry, stripped |
| `Headers.OriginSingleEntry` | main.py:35 | A header without commas gives its whole value, stripped |
| `Headers.OriginIgnoresEarlierEntries` | main.py:35 | Entries before the last comma never affect the origin |
| `Store.Save` | main.py:28 | Binding a fresh non-empty token to a non-empty URL that has no token keeps the store invariant, so two URLs never share a token |
| `Store.Record` | main.py:38 | Appending a visit of a stored token keeps the store invariant |
| `Store.VisitCountIsPositions` | main.py:45 | The visit count of a token equals the number of log positions that name it |
| `Store.VisitCountAbsent` | main.py:45 | A token that no visit names has count 0 |
| `Store.TokensDistinct` | main.py:26-28 | Under the invariant, two distinct stored URLs have distinct tokens |
| `Text.StartsWith` | main.py:16 | `startswith` holds exactly when the prefix fits and agrees with the string position by position |
| `Results.Truthy` | main.py:23 | The truthiness tests (also main.py:34 and main.py:51): an optional string is truthy exactly when it is neither None nor "" |
| `Store.VisitCount` | main.py:45 | The assumed `get_stats` count never exceeds the number of logged visits; `VisitCountIsPositions` gives its exact value |
| `Shortener.IsToken` | main.py:26 | A `token_urlsafe(6)` token is truthy (non-empty) and contains no `/`, so it is one path segment |
| `Shortener.Shorten` | main.py:22-29 | The create body both endpoints share (also main.py:53-60). A success is always a link under the service host. The only failure is running out of candidates, which changes nothing. A URL with a truthy token leaves the store untouched. |
| `Shortener.ShortLink` | main.py:24 | A create response is the prefix `http://shorter-urls.com/` followed by the token |
| `Shortener.ShortLinkRoundTrip` | main.py:29 | The token is recovered from its link, and distinct tokens give distinct links |
| `Shortener.Allocate` | main.py:25-28 | The create loop settles on the first candidate not already stored. Every earlier candidate was taken. It finds none exactly when every candidate is taken. |
| `Shortener.Create` | main.py:20-29 | `/create/` rejects exactly the URLs without an `http://`/`https://` prefix. A rejection leaves the store unchanged. |
| `Shortener.CreateOptional` | main.py:49-60 | `/create_optional_params/` rejects only a missing or empty URL and otherwise behaves as the shared create body; a rejection changes nothing |
| `Shortener.Resolve` | main.py:31-41 | A stored token yields its URL unchanged and appends exactly one visit (token, forwarded origin, IP, time). The tables are unchanged. An unknown token is NotFound and nothing changes. |
| `Shortener.GetStats` | main.py:43-46 | Stats echo the token and report the number of logged visits that name it, without checking that the token exists |
| `Shortener.ShortenExisting` | main.py:22-24 | A URL that already has a token gets that token's link back and the store is not written |
| `Shortener.ShortenNew` | main.py:25-29 | For a new URL the returned token was absent from the store just before. It is the first free candidate. The store gains exactly that pair. When all candidates are taken, nothing changes. |
| `Shortener.ShortenKeepsValid` | main.py:22-29 | Create keeps the invariant and never rebinds an existing token or touches the visit log. The returned link's token and the URL are then bound in both tables. |
| `Shortener.ShortenIdempotent` | main.py:22-29 | Repeating a successful create of one URL returns the identical link and writes nothing; the same body is main.py:53-60 |
| `Shortener.CreateIdempotent` | main.py:20-29 | Two sequential `/create/` calls of one URL return the same link; the second leaves the store unchanged |
| `Shortener.CreateOptionalIdempotent` | main.py:49-60 | Two sequential `/create_optional_params/` calls of one URL return the same link; the second leaves the store unchanged |
| `Shortener.CreateKeepsValid` | main.py:20-60 | Both create endpoints keep the store invariant |
| `Shortener.ShortenThenResolve` | main.py:28-39 | Resolving the token just saved yields the saved URL and records exactly one visit |
| `Shortener.CreateThenResolve` | main.py:29-39 | After `/create/`, resolving the returned link's token yields the original URL |
| `Shortener.CreateOptionalThenResolve` | main.py:31-41 | After `/create_optional_params/` (main.py:56-60), resolving the returned link's token yields the original URL |
| `Shortener.ResolveKeepsValid` | main.py:33-38 | Resolve keeps the store invariant |
| `Shortener.VisitAccounting` | main.py:33-38 | n redirects of a stored token raise its visit count by exactly n and leave both tables unchanged |
| `Shortener.StatsUnknownIsZero` | main.py:45-46 | Under the invariant, stats of a token that was never stored reports 0 |
| `Shortener.CreateResolveStats` | main.py:26-46 | A URL created for the first time and then redirected n times reports exactly n visits |
| `Db.Database.constructor` | main.py:9 | The database starts empty and satisfies the invariant |
| `Db.Database.GetShortUrl` | main.py:22 | Reverse lookup: the token stored for the URL, if any. Under the invariant it is non-empty and maps back to the URL. |
| `Db.Database.ShortUrlExists` | main.py:27 | True exactly when the token is already bound |
| `Db.Database.SaveUrl` | main.py:28 | The new state is the old one with the token→URL and URL→token bindings added |
| `Db.Database.GetOriginalUrl` | main.py:33 | Forward lookup: the URL stored for the token, if any. Under the invariant it is non-empty and maps back to the token. |
| `Db.Database.SaveVisit` | main.py:38 | The new state is the old one with exactly one visit record appended |
| `Db.Database.GetStats` | main.py:45 | The number of logged visits that name the token |
| `Service.Shorten` | main.py:22-29 | The shared create body, with its candidate loop, keeps the invariant. Its response and new store are exactly `Shortener.Shorten`'s. |
| `Service.CreateShortUrl` | main.py:20-29 | The `/create/` handler keeps the invariant and does exactly what `Shortener.Create` describes |
| `Service.CreateShortUrlOptionalParams` | main.py:49-60 | The `/create_optional_params/` handler keeps the invariant and does exactly what `Shortener.CreateOptional` describes |
| `Service.RedirectToOriginal` | main.py:31-41 | The redirect handler keeps the invariant and does exactly what `Shortener.Resolve` describes |
| `Service.GetStats` | main.py:43-46 | The stats handler returns exactly `Shortener.GetStats` of the current store |
| `Service.Scenario` | main.py:20-46 | A sample run on a fresh database: two creates of one URL return the same link (the first candidate's), and after two redirects the stats report 2 visits |

## Left out

- HTTP transport: FastAPI routing, request and response objects and status codes are
  not modelled. A successful redirect is modelled as yielding the URL. The source
  *returns* a 307 `HTTPException` carrying the URL instead of raising it.
- Pydantic's `HttpUrl` parsing of the `/create/` body: it is a foreign library and may reject
  or reshape URLs before the validator runs. Only the explicit prefix check is modelled.
- Randomness: `secrets.token_urlsafe(6)` is replaced by a caller-supplied sequence of
  candidate tokens. Each candidate is 8 base64url characters, which is what that call
  yields. Running out of candidates is reported as `CandidatesExhausted`, an error the
  source does not have. The source loop has no bound, and nothing here claims that it
  terminates.
- Other request inputs are parameters. The clock (`datetime.now().strftime(...)`) becomes
  an opaque time string. The client address becomes an IP string. The header lookup
  becomes an optional header value; its case-insensitive name matching and its choice
  among repeated headers are not modelled.
- Whitespace for `strip()` covers the Latin-1 characters, in which header values are decoded;
  other Unicode whitespace is not modelled.
- `database.py` is not part of this model. It is abstracted as in-memory maps and a
  sequence with the semantics above. Nothing is claimed about persistence or about what
  its methods do outside the uses made here.
- Concurrency: the handlers are `async` and the check-then-save in create is not atomic.
  Calls are modelled one at a time, and races are out of scope. These include two
  concurrent creates of one URL, or of one token.
