/**
 * `getMediaUrl`: how a media path from the API becomes a URL the browser can
 * load. The build mode and the configured API URL are inputs.
 */
module MediaUrl {
  import opened Wrappers
  import opened Text

  datatype BuildMode = Development | Production

  const DefaultProfile := "/default-profile.png"
  const TunnelOrigin := "https://wh8txwpx-8000.uks1.devtunnels.ms"
  const LocalOrigin := "http://localhost:8000"
  const LocalHost := "localhost:8000"

  predicate IsAbsolute(url: string) {
    StartsWith(url, "http://") || StartsWith(url, "https://")
  }

  /** The origin put in front of relative paths. */
  function BaseUrl(mode: BuildMode, apiUrl: string): string {
    if mode == Development then TunnelOrigin else apiUrl
  }

  /** A relative path with exactly one leading '/' added when it has none. */
  function Rooted(url: string): (r: string)
    ensures |r| > 0 && r[0] == '/'
  {
    if StartsWith(url, "/") then url else "/" + url
  }

  function GetMediaUrl(url: Option<string>, mode: BuildMode, apiUrl: string): (r: string)
    ensures url.None? || url.value == [] ==> r == DefaultProfile
    ensures url.Some? && IsAbsolute(url.value) && !(mode == Development && Contains(url.value, LocalHost))
            ==> r == url.value
    ensures url.Some? && IsAbsolute(url.value) && mode == Development && Contains(url.value, LocalHost)
            ==> r == ReplaceFirst(url.value, LocalOrigin, TunnelOrigin)
    ensures url.Some? && url.value != [] && !IsAbsolute(url.value)
            ==> r == BaseUrl(mode, apiUrl) + Rooted(url.value)
  {
    if url.None? || url.value == [] then DefaultProfile
    else if IsAbsolute(url.value) then
      if mode == Development && Contains(url.value, LocalHost) then
        ReplaceFirst(url.value, LocalOrigin, TunnelOrigin)
      else url.value
    else BaseUrl(mode, apiUrl) + Rooted(url.value)
  }

  /** In development, an absolute URL on the local server is moved to the tunnel;
      one that mentions the local host without the exact origin is unchanged. */
  lemma DevelopmentRewritesLocalOrigin(url: string, apiUrl: string)
    requires IsAbsolute(url) && Contains(url, LocalHost)
    ensures StartsWith(url, LocalOrigin) ==>
      GetMediaUrl(Some(url), Development, apiUrl) == TunnelOrigin + url[|LocalOrigin|..]
    ensures !Contains(url, LocalOrigin) ==> GetMediaUrl(Some(url), Development, apiUrl) == url
  {
    if StartsWith(url, LocalOrigin) {
      assert MatchAt(url, LocalOrigin, 0);
      var i := IndexOf(url, LocalOrigin, 0);
      assert i == 0;
    }
  }

  /** A relative path ends up under the base with one '/' between them, and the
      path after it is the original without its leading '/'. */
  lemma RelativeJoin(url: string, mode: BuildMode, apiUrl: string)
    requires url != [] && !IsAbsolute(url)
    ensures var r, b := GetMediaUrl(Some(url), mode, apiUrl), BaseUrl(mode, apiUrl);
      r[..|b|] == b && r[|b|] == '/'
      && r[|b| + 1..] == (if url[0] == '/' then url[1..] else url)
  {
    var b := BaseUrl(mode, apiUrl);
    var r := GetMediaUrl(Some(url), mode, apiUrl);
    assert r == b + Rooted(url);
    assert r[|b|..] == Rooted(url);
    if url[0] == '/' {
      assert StartsWith(url, "/");
    } else {
      assert !StartsWith(url, "/");
    }
  }

  /** With an absolute API URL, a production URL is already final: normalising
      it again changes nothing. */
  lemma ProductionIdempotent(url: string, apiUrl: string)
    requires url != [] && IsAbsolute(apiUrl)
    ensures var r := GetMediaUrl(Some(url), Production, apiUrl);
      GetMediaUrl(Some(r), Production, apiUrl) == r
  {
    var r := GetMediaUrl(Some(url), Production, apiUrl);
    if !IsAbsolute(url) {
      assert r == apiUrl + Rooted(url);
      if StartsWith(apiUrl, "http://") {
        assert r[..7] == apiUrl[..7];
      } else {
        assert r[..8] == apiUrl[..8];
      }
    }
  }
}
