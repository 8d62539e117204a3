/**
 * The short-link handlers as functions over the store: create (both endpoints),
 * resolve and stats, with what each one guarantees.
 */
module Shortener {
  import opened Results
  import opened Text
  import opened Headers
  import opened Validation
  import opened Store

  /** The host every short link is issued under. */
  const Host := "http://shorter-urls.com/"

  /** The "short_url" field of a create response. */
  function ShortLink(token: string): (link: string)
    ensures StartsWith(link, Host)
    ensures link[|Host|..] == token
  {
    Host + token
  }

  /** The token a short link carries. */
  function TokenOf(link: string): string
    requires StartsWith(link, Host)
  {
    link[|Host|..]
  }

  /** Distinct tokens give distinct short links, and the token is recovered from the link. */
  lemma ShortLinkRoundTrip(t1: string, t2: string)
    ensures TokenOf(ShortLink(t1)) == t1
    ensures ShortLink(t1) == ShortLink(t2) ==> t1 == t2
  {
  }

  /** A character of the base64url alphabet. */
  predicate IsUrlSafe(c: char) {
    'A' <= c <= 'Z' || 'a' <= c <= 'z' || '0' <= c <= '9' || c == '-' || c == '_'
  }

  /**
   * What secrets.token_urlsafe(6) yields: six random bytes in unpadded base64url,
   * that is eight characters of the URL-safe alphabet.
   */
  predicate IsToken(t: string)
    ensures IsToken(t) ==> Truthy(Some(t))
    ensures IsToken(t) ==> '/' !in t
  {
    |t| == 8 && forall i :: 0 <= i < |t| ==> IsUrlSafe(t[i])
  }

  predicate AllTokens(candidates: seq<string>) {
    forall i :: 0 <= i < |candidates| ==> IsToken(candidates[i])
  }

  /**
   * The token the create loop settles on: the first candidate that is not already a
   * stored token, or None when every candidate is taken.
   */
  function Allocate(urlOf: map<string, string>, candidates: seq<string>): (r: Option<string>)
    ensures r.None? <==> forall i :: 0 <= i < |candidates| ==> candidates[i] in urlOf
    ensures r.Some? ==> r.value !in urlOf
    ensures r.Some? ==> exists i :: 0 <= i < |candidates| && candidates[i] == r.value
                                   && forall j :: 0 <= j < i ==> candidates[j] in urlOf
    decreases |candidates|
  {
    if candidates == [] then None
    else if candidates[0] !in urlOf then Some(candidates[0])
    else
      var r := Allocate(urlOf, candidates[1..]);
      assert r.Some? ==> exists i :: 0 <= i < |candidates| && candidates[i] == r.value
                                     && forall j :: 0 <= j < i ==> candidates[j] in urlOf by {
        if r.Some? {
          var i :| 0 <= i < |candidates[1..]| && candidates[1..][i] == r.value
                   && forall j :: 0 <= j < i ==> candidates[1..][j] in urlOf;
          assert candidates[i + 1] == r.value;
          forall j | 0 <= j < i + 1 ensures candidates[j] in urlOf {
            if j > 0 { assert candidates[j] == candidates[1..][j - 1]; }
          }
        }
      }
      r
  }

  /** The response of a handler together with the store after it. */
  datatype Step<T> = Step(result: Result<T>, store: State)

  /**
   * The body shared by both create endpoints: a URL that already has a (truthy)
   * token gets that token's link and the store is left alone; otherwise the first
   * free candidate is bound to the URL and its link returned.
   */
  function Shorten(s: State, url: string, candidates: seq<string>): (r: Step<string>)
    ensures r.result.Ok? ==> StartsWith(r.result.value, Host)
    ensures r.result.Err? ==> r.result.error == CandidatesExhausted && r.store == s
    ensures Truthy(Lookup(s.tokenOf, url)) ==> r.store == s
  {
    var existing := Lookup(s.tokenOf, url);
    if Truthy(existing) then Step(Ok(ShortLink(existing.value)), s)
    else
      match Allocate(s.urlOf, candidates)
      case None => Step(Err(CandidatesExhausted), s)
      case Some(t) => Step(Ok(ShortLink(t)), Save(s, t, url))
  }

  /** POST /create/: the scheme check, then Shorten. */
  function Create(s: State, url: string, candidates: seq<string>): (r: Step<string>)
    ensures r.result == Err(InvalidUrlFormat) <==> !StartsWith(url, "http://") && !StartsWith(url, "https://")
    ensures r.result.Err? ==> r.store == s
  {
    match ValidateUrl(url)
    case Err(e) => Step(Err(e), s)
    case Ok(u) => Shorten(s, u, candidates)
  }

  /**
   * POST /create_optional_params/: only a missing or empty URL is refused; any other
   * string, with or without a scheme, goes to Shorten.
   */
  function CreateOptional(s: State, url: Option<string>, candidates: seq<string>): (r: Step<string>)
    ensures r.result == Err(UrlRequired) <==> url.None? || url.value == ""
    ensures url.Some? && url.value != "" ==> r == Shorten(s, url.value, candidates)
    ensures r.result.Err? ==> r.store == s
  {
    match RequireUrl(url)
    case Err(e) => Step(Err(e), s)
    case Ok(u) => Shorten(s, u, candidates)
  }

  /**
   * GET /{short_url}: a stored (truthy) URL is returned and exactly one visit of the
   * token is appended, carrying the forwarded origin, the client IP and the time;
   * an unknown token is NotFound and nothing changes.
   */
  function Resolve(s: State, token: string, forwardedFor: Option<string>, ip: string, time: string): (r: Step<string>)
    ensures r.result.Ok? <==> token in s.urlOf && s.urlOf[token] != ""
    ensures r.result.Ok? ==> r.result.value == s.urlOf[token]
    ensures r.result.Ok? ==> r.store.urlOf == s.urlOf && r.store.tokenOf == s.tokenOf
                             && r.store.visits == s.visits + [Visit(token, ForwardedOrigin(forwardedFor), ip, time)]
    ensures r.result.Err? ==> r.result.error == NotFound && r.store == s
  {
    var original := Lookup(s.urlOf, token);
    if Truthy(original) then
      Step(Ok(original.value), Record(s, Visit(token, ForwardedOrigin(forwardedFor), ip, time)))
    else
      Step(Err(NotFound), s)
  }

  /** The body of GET /stats/{short_url}. */
  datatype Stats = Stats(shortUrl: string, visitCount: nat)

  /** GET /stats/{short_url}: the store's count for the token, with no existence check. */
  function GetStats(s: State, token: string): (r: Stats)
    ensures r.shortUrl == token
    ensures r.visitCount == |VisitsOf(s.visits, token)|
  {
    VisitCountIsPositions(s.visits, token);
    Stats(token, VisitCount(s.visits, token))
  }

  /* ---------------------------------------------------------------------------
   * Create: dedup, fresh tokens, the store invariant
   * ------------------------------------------------------------------------- */

  /** A URL that already has a token gets that token's link back, and nothing is written. */
  lemma ShortenExisting(s: State, url: string, candidates: seq<string>)
    requires Valid(s)
    requires url in s.tokenOf
    ensures Shorten(s, url, candidates) == Step(Ok(ShortLink(s.tokenOf[url])), s)
  {
  }

  /**
   * For a URL without a token: on success the returned link carries a candidate that
   * was not a stored token just before, every earlier candidate was taken, and the
   * store gains exactly that binding; on failure every candidate was taken and the
   * store is unchanged.
   */
  lemma ShortenNew(s: State, url: string, candidates: seq<string>)
    requires url !in s.tokenOf
    ensures var r := Shorten(s, url, candidates);
      r.result.Ok? ==>
        && StartsWith(r.result.value, Host)
        && var t := TokenOf(r.result.value);
        && t !in s.urlOf
        && (exists i :: 0 <= i < |candidates| && candidates[i] == t && forall j :: 0 <= j < i ==> candidates[j] in s.urlOf)
        && r.store == Save(s, t, url)
    ensures var r := Shorten(s, url, candidates);
      r.result.Err? ==>
        && r.result.error == CandidatesExhausted
        && (forall i :: 0 <= i < |candidates| ==> candidates[i] in s.urlOf)
        && r.store == s
  {
  }

  /**
   * Shorten keeps the store invariant, never changes an existing binding or the visit
   * log, and on success the store binds the link's token and the URL to each other.
   */
  lemma ShortenKeepsValid(s: State, url: string, candidates: seq<string>)
    requires Valid(s)
    requires url != ""
    requires AllTokens(candidates)
    ensures var r := Shorten(s, url, candidates);
      && Valid(r.store)
      && r.store.visits == s.visits
      && (forall t :: t in s.urlOf ==> t in r.store.urlOf && r.store.urlOf[t] == s.urlOf[t])
      && (r.result.Ok? ==>
            && StartsWith(r.result.value, Host)
            && var t := TokenOf(r.result.value);
            && url in r.store.tokenOf && r.store.tokenOf[url] == t
            && t in r.store.urlOf && r.store.urlOf[t] == url)
  {
  }

  /**
   * Repeating a successful Shorten of one URL, with any candidates, returns the same
   * link and writes nothing.
   */
  lemma ShortenIdempotent(s: State, url: string, first: seq<string>, second: seq<string>)
    requires Valid(s)
    requires url != ""
    requires AllTokens(first)
    requires Shorten(s, url, first).result.Ok?
    ensures var r := Shorten(s, url, first);
      Shorten(r.store, url, second) == r
  {
  }

  /** Two sequential /create/ calls with one URL return the identical link; the second writes nothing. */
  lemma CreateIdempotent(s: State, url: string, first: seq<string>, second: seq<string>)
    requires Valid(s)
    requires AllTokens(first)
    requires Create(s, url, first).result.Ok?
    ensures var r := Create(s, url, first);
      Create(r.store, url, second) == r
  {
  }

  /** The same for /create_optional_params/. */
  lemma CreateOptionalIdempotent(s: State, url: Option<string>, first: seq<string>, second: seq<string>)
    requires Valid(s)
    requires AllTokens(first)
    requires CreateOptional(s, url, first).result.Ok?
    ensures var r := CreateOptional(s, url, first);
      CreateOptional(r.store, url, second) == r
  {
  }

  /** Both create endpoints keep the store invariant. */
  lemma CreateKeepsValid(s: State, url: string, optUrl: Option<string>, candidates: seq<string>)
    requires Valid(s)
    requires AllTokens(candidates)
    ensures Valid(Create(s, url, candidates).store)
    ensures Valid(CreateOptional(s, optUrl, candidates).store)
  {
  }

  /* ---------------------------------------------------------------------------
   * Resolve after create
   * ------------------------------------------------------------------------- */

  /**
   * Resolving the token of a link that Shorten returned yields the URL unchanged and
   * records one visit.
   */
  lemma ShortenThenResolve(s: State, url: string, candidates: seq<string>,
                           forwardedFor: Option<string>, ip: string, time: string)
    requires Valid(s)
    requires url != ""
    requires AllTokens(candidates)
    requires Shorten(s, url, candidates).result.Ok?
    ensures var r := Shorten(s, url, candidates);
      var t := TokenOf(r.result.value);
      Resolve(r.store, t, forwardedFor, ip, time)
        == Step(Ok(url), Record(r.store, Visit(t, ForwardedOrigin(forwardedFor), ip, time)))
  {
  }

  /** /create/ followed by a redirect of the returned token gives back the original URL. */
  lemma CreateThenResolve(s: State, url: string, candidates: seq<string>,
                          forwardedFor: Option<string>, ip: string, time: string)
    requires Valid(s)
    requires AllTokens(candidates)
    requires Create(s, url, candidates).result.Ok?
    ensures var r := Create(s, url, candidates);
      StartsWith(r.result.value, Host) &&
      Resolve(r.store, TokenOf(r.result.value), forwardedFor, ip, time).result == Ok(url)
  {
  }

  /** /create_optional_params/ followed by a redirect gives back the original URL. */
  lemma CreateOptionalThenResolve(s: State, url: Option<string>, candidates: seq<string>,
                                  forwardedFor: Option<string>, ip: string, time: string)
    requires Valid(s)
    requires AllTokens(candidates)
    requires CreateOptional(s, url, candidates).result.Ok?
    ensures var r := CreateOptional(s, url, candidates);
      StartsWith(r.result.value, Host) &&
      Resolve(r.store, TokenOf(r.result.value), forwardedFor, ip, time).result == Ok(url.value)
  {
  }

  /** Resolve keeps the store invariant. */
  lemma ResolveKeepsValid(s: State, token: string, forwardedFor: Option<string>, ip: string, time: string)
    requires Valid(s)
    ensures Valid(Resolve(s, token, forwardedFor, ip, time).store)
  {
  }

  /* ---------------------------------------------------------------------------
   * Visit accounting
   * ------------------------------------------------------------------------- */

  /** The request data a redirect reads besides the token. */
  datatype Request = Request(forwardedFor: Option<string>, ip: string, time: string)

  /** The store after the token is resolved once per request, in order. */
  function ResolveAll(s: State, token: string, requests: seq<Request>): State
    decreases |requests|
  {
    if requests == [] then s
    else
      var q := requests[|requests| - 1];
      Resolve(ResolveAll(s, token, requests[..|requests| - 1]), token, q.forwardedFor, q.ip, q.time).store
  }

  /** n redirects of a stored token raise its count by exactly n and leave the tables alone. */
  lemma {:induction false} VisitAccounting(s: State, token: string, requests: seq<Request>)
    requires token in s.urlOf && s.urlOf[token] != ""
    ensures var s' := ResolveAll(s, token, requests);
      && s'.urlOf == s.urlOf && s'.tokenOf == s.tokenOf
      && VisitCount(s'.visits, token) == VisitCount(s.visits, token) + |requests|
    decreases |requests|
  {
    if requests != [] {
      VisitAccounting(s, token, requests[..|requests| - 1]);
      var mid := ResolveAll(s, token, requests[..|requests| - 1]);
      var q := requests[|requests| - 1];
      var s' := Resolve(mid, token, q.forwardedFor, q.ip, q.time).store;
      assert s'.visits[..|s'.visits| - 1] == mid.visits;
    }
  }

  /** Under the invariant, an unknown token has count 0 (stats does not report NotFound). */
  lemma StatsUnknownIsZero(s: State, token: string)
    requires Valid(s)
    requires token !in s.urlOf
    ensures GetStats(s, token) == Stats(token, 0)
  {
  }

  /**
   * A URL created for the first time and then redirected n times has exactly n visits
   * in its stats.
   */
  lemma CreateResolveStats(s: State, url: string, candidates: seq<string>, requests: seq<Request>)
    requires Valid(s)
    requires url !in s.tokenOf
    requires AllTokens(candidates)
    requires Create(s, url, candidates).result.Ok?
    ensures var r := Create(s, url, candidates);
      var t := TokenOf(r.result.value);
      GetStats(ResolveAll(r.store, t, requests), t).visitCount == |requests|
  {
    var r := Create(s, url, candidates);
    ShortenNew(s, url, candidates);
    ShortenKeepsValid(s, url, candidates);
    var t := TokenOf(r.result.value);
    StatsUnknownIsZero(s, t);
    assert r.store.visits == s.visits;
    VisitAccounting(r.store, t, requests);
  }
}
