/**
 * The API address helper: the base URL chosen by the build mode and the
 * environment, and `createApiUrl`, which joins it with a path.
 */
module Api {
  import opened Wrappers
  import Text

  const ProductionDefault: string := "https://your-backend-url.railway.app"
  const DevelopmentBase: string := "http://localhost:5000"

  /**
   * `getApiBaseUrl`: in a production build the configured
   * `VITE_API_BASE_URL` when it is set and not empty, otherwise the
   * deployed default; in development the local server.
   */
  function ApiBaseUrl(production: bool, configured: Option<string>): (base: string)
    ensures !production ==> base == DevelopmentBase
    ensures production && configured.Some? && configured.value != "" ==> base == configured.value
    ensures production && (configured.None? || configured.value == "") ==> base == ProductionDefault
    ensures base != ""
  {
    if production then
      if configured.Some? && configured.value != "" then configured.value else ProductionDefault
    else DevelopmentBase
  }

  /**
   * `createApiUrl(path)`: the base, one slash, and the path without its own
   * leading slash if it has one.
   */
  function CreateApiUrl(production: bool, configured: Option<string>, path: string): (url: string)
    ensures var base := ApiBaseUrl(production, configured);
      url == base + "/" + (if Text.StartsWith(path, "/") then path[1..] else path)
    ensures Text.StartsWith(url, ApiBaseUrl(production, configured) + "/")
  {
    WithPath(ApiBaseUrl(production, configured), path)
  }

  /** The joining step of `createApiUrl`, for any base. */
  function WithPath(base: string, path: string): (url: string)
    ensures url == base + "/" + (if Text.StartsWith(path, "/") then path[1..] else path)
    ensures Text.StartsWith(url, base + "/")
  {
    var tail := if Text.StartsWith(path, "/") then path[1..] else path;
    assert Text.StartsWith(path, "/") ==> path == "/" + tail;
    assert base + "/" + tail == base + ("/" + tail);
    assert (base + "/" + tail)[..|base + "/"|] == base + "/";
    base + (if Text.StartsWith(path, "/") then path else "/" + path)
  }

  /** A path that starts with "/" is appended as it is; any other path, "" included, after a "/". */
  lemma CreateApiUrlCases(production: bool, configured: Option<string>, path: string)
    ensures Text.StartsWith(path, "/") ==> CreateApiUrl(production, configured, path) == ApiBaseUrl(production, configured) + path
    ensures !Text.StartsWith(path, "/") ==> CreateApiUrl(production, configured, path) == ApiBaseUrl(production, configured) + "/" + path
  {
    assert Text.StartsWith(path, "/") ==> path == "/" + path[1..];
  }

  /** Writing the leading slash or leaving it out gives the same address. */
  lemma LeadingSlashOptional(production: bool, configured: Option<string>, path: string)
    requires !Text.StartsWith(path, "/")
    ensures CreateApiUrl(production, configured, path) == CreateApiUrl(production, configured, "/" + path)
  {
    assert Text.StartsWith("/" + path, "/");
    assert ("/" + path)[1..] == path;
  }
}
