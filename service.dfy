/**
 * The request handlers, run against a shared Database. Each one is proved to do
 * exactly what the matching function of Shortener describes.
 */
module Service {
  import opened Results
  import opened Headers
  import opened Validation
  import opened Store
  import opened Db
  import Shortener

  /**
   * The body both create endpoints share: reuse the URL's token, or try candidates
   * until one is free and bind it. The source draws candidates without end; here they
   * are supplied, and running out of them is an error.
   */
  method Shorten(db: Database, url: string, candidates: seq<string>) returns (r: Result<string>)
    requires db.Valid()
    requires url != ""
    requires Shortener.AllTokens(candidates)
    modifies db
    ensures db.Valid()
    ensures Shortener.Step(r, db.Model()) == Shortener.Shorten(old(db.Model()), url, candidates)
  {
    ghost var s := db.Model();
    var existing := db.GetShortUrl(url);
    if Truthy(existing) {
      return Ok(Shortener.ShortLink(existing.value));
    }
    var i := 0;
    while i < |candidates|
      invariant 0 <= i <= |candidates|
      invariant db.Model() == s
      invariant Shortener.Allocate(s.urlOf, candidates) == Shortener.Allocate(s.urlOf, candidates[i..])
    {
      var candidate := candidates[i];
      var taken := db.ShortUrlExists(candidate);
      if !taken {
        assert Shortener.IsToken(candidates[i]);
        db.SaveUrl(candidate, url);
        return Ok(Shortener.ShortLink(candidate));
      }
      assert candidates[i..][1..] == candidates[i + 1..];
      i := i + 1;
    }
    return Err(CandidatesExhausted);
  }

  /** POST /create/ */
  method CreateShortUrl(db: Database, url: string, candidates: seq<string>) returns (r: Result<string>)
    requires db.Valid()
    requires Shortener.AllTokens(candidates)
    modifies db
    ensures db.Valid()
    ensures Shortener.Step(r, db.Model()) == Shortener.Create(old(db.Model()), url, candidates)
  {
    var v := ValidateUrl(url);
    if v.Err? {
      return Err(v.error);
    }
    r := Shorten(db, v.value, candidates);
  }

  /** POST /create_optional_params/ */
  method CreateShortUrlOptionalParams(db: Database, url: Option<string>, candidates: seq<string>)
    returns (r: Result<string>)
    requires db.Valid()
    requires Shortener.AllTokens(candidates)
    modifies db
    ensures db.Valid()
    ensures Shortener.Step(r, db.Model()) == Shortener.CreateOptional(old(db.Model()), url, candidates)
  {
    if !Truthy(url) {
      return Err(UrlRequired);
    }
    r := Shorten(db, url.value, candidates);
  }

  /**
   * GET /{short_url}: the header value, the client address and the formatted current
   * time are passed in.
   */
  method RedirectToOriginal(db: Database, token: string, forwardedFor: Option<string>, ip: string, time: string)
    returns (r: Result<string>)
    requires db.Valid()
    modifies db
    ensures db.Valid()
    ensures Shortener.Step(r, db.Model()) == Shortener.Resolve(old(db.Model()), token, forwardedFor, ip, time)
  {
    var original := db.GetOriginalUrl(token);
    if Truthy(original) {
      var origin := ForwardedOrigin(forwardedFor);
      db.SaveVisit(token, origin, ip, time);
      return Ok(original.value);
    } else {
      return Err(NotFound);
    }
  }

  /** GET /stats/{short_url} */
  method GetStats(db: Database, token: string) returns (r: Shortener.Stats)
    ensures r == Shortener.GetStats(db.Model(), token)
  {
    var count := db.GetStats(token);
    VisitCountIsPositions(db.visits, token);
    r := Shortener.Stats(token, count);
  }

  /**
   * A sample run on a fresh database: create a URL twice, redirect twice, read the stats.
   */
  method Scenario(candidates: seq<string>, forwardedFor: Option<string>, ip: string, time: string)
    returns (first: Result<string>, second: Result<string>, stats: Shortener.Stats)
    requires Shortener.AllTokens(candidates) && |candidates| > 0
    ensures first == second == Ok(Shortener.ShortLink(candidates[0]))
    ensures stats == Shortener.Stats(candidates[0], 2)
  {
    var db := new Database();
    var url := "https://example.com/a";
    var token := candidates[0];
    first := CreateShortUrl(db, url, candidates);
    assert Shortener.Allocate(map[], candidates) == Some(token);
    assert first == Ok(Shortener.ShortLink(token));
    assert db.Model() == Save(Empty, token, url);
    second := CreateShortUrl(db, url, candidates);
    assert second == first;
    var a := RedirectToOriginal(db, token, forwardedFor, ip, time);
    assert a == Ok(url);
    var b := RedirectToOriginal(db, token, forwardedFor, ip, time);
    assert b == Ok(url);
    ghost var v := Visit(token, ForwardedOrigin(forwardedFor), ip, time);
    assert db.visits == [v, v];
    assert [v, v][..1] == [v];
    assert VisitCount(db.visits, token) == 2;
    stats := GetStats(db, token);
  }
}
