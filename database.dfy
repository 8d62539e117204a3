/**
 * The database object the handlers share. Its implementation (database.py) is not part
 * of this model; the class holds the two tables and the visit log in memory and its
 * methods have the semantics the handlers rely on.
 */
module Db {
  import opened Results
  import opened Store

  class Database {
    var urlOf: map<string, string>    // short token -> original URL
    var tokenOf: map<string, string>  // original URL -> short token
    var visits: seq<Visit>            // append-only visit log

    /** The abstract value of the database. */
    function Model(): State
      reads this
    {
      State(urlOf, tokenOf, visits)
    }

    ghost predicate Valid()
      reads this
    {
      Store.Valid(Model())
    }

    constructor ()
      ensures Valid()
      ensures Model() == Empty
    {
      urlOf, tokenOf, visits := map[], map[], [];
    }

    /** get_short_url: the token stored for the URL, if any. */
    method GetShortUrl(url: string) returns (token: Option<string>)
      ensures token.Some? <==> url in tokenOf
      ensures token.Some? ==> token.value == tokenOf[url]
      ensures token.Some? && Valid() ==> token.value != "" && urlOf[token.value] == url
    {
      token := Lookup(tokenOf, url);
    }

    /** short_url_exists: whether the token is already bound. */
    method ShortUrlExists(token: string) returns (taken: bool)
      ensures taken <==> token in urlOf
    {
      taken := token in urlOf;
    }

    /** save_url: binds the token to the URL in both tables. */
    method SaveUrl(token: string, url: string)
      modifies this
      ensures Model() == Save(old(Model()), token, url)
    {
      urlOf := urlOf[token := url];
      tokenOf := tokenOf[url := token];
    }

    /** get_original_url: the URL stored for the token, if any. */
    method GetOriginalUrl(token: string) returns (url: Option<string>)
      ensures url.Some? <==> token in urlOf
      ensures url.Some? ==> url.value == urlOf[token]
      ensures url.Some? && Valid() ==> url.value != "" && tokenOf[url.value] == token
    {
      url := Lookup(urlOf, token);
    }

    /** save_visit: appends one visit record to the log. */
    method SaveVisit(token: string, origin: string, ip: string, time: string)
      modifies this
      ensures Model() == Record(old(Model()), Visit(token, origin, ip, time))
    {
      visits := visits + [Visit(token, origin, ip, time)];
    }

    /** get_stats: the number of logged visits of the token. */
    method GetStats(token: string) returns (count: nat)
      ensures count == |VisitsOf(visits, token)|
    {
      VisitCountIsPositions(visits, token);
      count := VisitCount(visits, token);
    }
  }
}
