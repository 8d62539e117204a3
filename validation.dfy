/** The two input rules applied before a URL is shortened. */
module Validation {
  import opened Results
  import opened Text

  /**
   * The validator on the /create/ body: the URL must start with "http://" or
   * "https://"; otherwise it is rejected. An accepted URL is passed on unchanged.
   */
  function ValidateUrl(v: string): (r: Result<string>)
    ensures r.Ok? ==> r.value == v
    ensures r.Err? ==> r.error == InvalidUrlFormat
    ensures r.Ok? <==> |v| >= 7 && v[..4] == "http" && (v[4..7] == "://" || (|v| >= 8 && v[4..8] == "s://"))
  {
    if !StartsWith(v, "http://") && !StartsWith(v, "https://") then Err(InvalidUrlFormat) else Ok(v)
  }

  /**
   * The "URL is required" rule of /create_optional_params/: a missing or empty URL is
   * rejected, every other string is accepted as it is, with no scheme check.
   */
  function RequireUrl(url: Option<string>): (r: Result<string>)
    ensures r.Ok? <==> url.Some? && url.value != ""
    ensures r.Ok? ==> r.value == url.value
    ensures r.Err? ==> r.error == UrlRequired
  {
    if !Truthy(url) then Err(UrlRequired) else Ok(url.value)
  }
}
