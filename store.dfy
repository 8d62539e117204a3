/**
 * The abstract contents of the database behind the service: the token-to-URL
 * table, its reverse index from URL to token, and the append-only visit log.
 */
module Store {
  import opened Results

  /** One recorded redirect: the token, the visitor origin, the client IP and the time. */
  datatype Visit = Visit(token: string, origin: string, ip: string, time: string)

  datatype State = State(urlOf: map<string, string>, tokenOf: map<string, string>, visits: seq<Visit>)

  const Empty := State(map[], map[], [])

  /**
   * The store invariant: the forward and the reverse tables are inverse to each other
   * (so no two URLs share a token and no URL has two tokens), tokens and URLs are
   * non-empty, and every visit refers to a stored token.
   */
  ghost predicate Valid(s: State) {
    && (forall t :: t in s.urlOf ==> t != "" && s.urlOf[t] != "" && s.urlOf[t] in s.tokenOf && s.tokenOf[s.urlOf[t]] == t)
    && (forall u :: u in s.tokenOf ==> s.tokenOf[u] in s.urlOf && s.urlOf[s.tokenOf[u]] == u)
    && (forall i :: 0 <= i < |s.visits| ==> s.visits[i].token in s.urlOf)
  }

  /**
   * save_url: binds the token to the URL in both tables; binding a fresh non-empty
   * token to a non-empty URL that has none keeps the invariant.
   */
  function Save(s: State, token: string, url: string): (r: State)
    ensures Valid(s) && token !in s.urlOf && url !in s.tokenOf && token != "" && url != "" ==> Valid(r)
  {
    State(s.urlOf[token := url], s.tokenOf[url := token], s.visits)
  }

  /** save_visit: appends one visit record; a visit of a stored token keeps the invariant. */
  function Record(s: State, v: Visit): (r: State)
    ensures Valid(s) && v.token in s.urlOf ==> Valid(r)
  {
    State(s.urlOf, s.tokenOf, s.visits + [v])
  }

  /** get_stats: the number of visits recorded for the token. */
  function VisitCount(visits: seq<Visit>, token: string): (n: nat)
    ensures n <= |visits|
    decreases |visits|
  {
    if visits == [] then 0
    else VisitCount(visits[..|visits| - 1], token) + (if visits[|visits| - 1].token == token then 1 else 0)
  }

  /** The positions of the log that hold a visit of the token. */
  ghost function VisitsOf(visits: seq<Visit>, token: string): set<nat> {
    set i: nat | i < |visits| && visits[i].token == token
  }

  /** The count equals the number of log positions that name the token. */
  lemma {:induction false} VisitCountIsPositions(visits: seq<Visit>, token: string)
    ensures VisitCount(visits, token) == |VisitsOf(visits, token)|
    decreases |visits|
  {
    if visits != [] {
      var init := visits[..|visits| - 1];
      VisitCountIsPositions(init, token);
      var n := |visits| - 1;
      if visits[n].token == token {
        assert VisitsOf(visits, token) == VisitsOf(init, token) + {n};
      } else {
        assert VisitsOf(visits, token) == VisitsOf(init, token);
      }
    }
  }

  /** A token that no visit names has count 0. */
  lemma {:induction false} VisitCountAbsent(visits: seq<Visit>, token: string)
    requires forall i :: 0 <= i < |visits| ==> visits[i].token != token
    ensures VisitCount(visits, token) == 0
    decreases |visits|
  {
    if visits != [] {
      VisitCountAbsent(visits[..|visits| - 1], token);
    }
  }

  /** Two distinct stored URLs never share a token. */
  lemma TokensDistinct(s: State, u1: string, u2: string)
    requires Valid(s)
    requires u1 in s.tokenOf && u2 in s.tokenOf && u1 != u2
    ensures s.tokenOf[u1] != s.tokenOf[u2]
  {
  }
}
