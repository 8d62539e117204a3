/** Option and Result values, and the errors the service reports. */
module Results {

  datatype Option<+T> = None | Some(value: T)

  /** The ways a request can fail. */
  datatype Error =
    | InvalidUrlFormat     // validator on /create/ rejects the URL (no http:// or https:// prefix)
    | UrlRequired          // /create_optional_params/ got no URL or an empty one (HTTP 400)
    | NotFound             // no URL is stored for the short token (HTTP 404)
    | CandidatesExhausted  // every supplied candidate token was already taken

  datatype Result<+T> = Ok(value: T) | Err(error: Error)

  /** Python truthiness of an optional string: present and non-empty. */
  predicate Truthy(o: Option<string>)
    ensures Truthy(o) <==> o != None && o != Some("")
  {
    o.Some? && o.value != ""
  }

  /** Dictionary lookup that yields None for a missing key. */
  function Lookup<K, V>(m: map<K, V>, k: K): (r: Option<V>)
    ensures r.Some? <==> k in m
    ensures r.Some? ==> r.value == m[k]
  {
    if k in m then Some(m[k]) else None
  }
}
