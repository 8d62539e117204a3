/** The visitor origin recorded on a redirect, taken from the X-Forwarded-For header. */
module Headers {
  import opened Results
  import opened Text

  /**
   * The last comma-separated entry of X-Forwarded-For with surrounding whitespace
   * stripped; an absent header reads as the empty string.
   */
  function ForwardedOrigin(header: Option<string>): (origin: string)
    ensures header.None? ==> origin == ""
    ensures ',' !in origin
    ensures origin != [] ==> !IsSpace(origin[0]) && !IsSpace(origin[|origin| - 1])
  {
    var value := if header.Some? then header.value else "";
    var parts := Split(value, ',');
    var last := parts[|parts| - 1];
    var origin := Strip(last);
    assert forall k :: 0 <= k < |origin| ==> origin[k] == last[LeadingSpaces(last) + k];
    origin
  }

  /**
   * For a header h and a position k where the last entry starts (h[k..] holds no comma
   * and k is 0 or follows a comma), the origin is that entry stripped.
   */
  lemma OriginIsLastEntry(h: string, k: nat)
    requires k <= |h|
    requires ',' !in h[k..]
    requires k == 0 || h[k - 1] == ','
    ensures ForwardedOrigin(Some(h)) == Strip(h[k..])
  {
    LastPieceAfterLastSep(h, ',', k);
    var parts := Split(h, ',');
    assert parts[|parts| - 1] == h[k..];
  }

  /** A header without commas yields its whole value, stripped. */
  lemma OriginSingleEntry(h: string)
    requires ',' !in h
    ensures ForwardedOrigin(Some(h)) == Strip(h)
  {
    assert h[0..] == h;
    OriginIsLastEntry(h, 0);
  }

  /** Entries before the last comma never influence the origin. */
  lemma OriginIgnoresEarlierEntries(front: string, last: string)
    requires ',' !in last
    ensures ForwardedOrigin(Some(front + "," + last)) == Strip(last)
  {
    var h := front + "," + last;
    assert h[|front| + 1..] == last;
    OriginIsLastEntry(h, |front| + 1);
  }
}
