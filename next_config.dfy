/** The Next.js configuration: strict mode outside development, and the two password-route rewrites. */
module NextConfig {
  import opened Wrappers
  import opened JsStrings

  /** `process.env.NODE_ENV !== 'development'`. */
  function ReactStrictMode(nodeEnv: Option<string>): (on: bool)
    ensures !on <==> nodeEnv == Some("development")
  {
    nodeEnv != Some("development")
  }

  datatype Rewrite = Rewrite(source: string, destination: string)

  const REWRITTEN_PATHS: seq<string> := ["/api/auth/forgot-password", "/api/auth/reset-password"]

  /**
   * rewrites(): none without an API URL; otherwise the forgot- and reset-password routes, each
   * sent to the API URL (one trailing '/' dropped) followed by its own path.
   */
  function Rewrites(apiUrl: Option<string>): (r: seq<Rewrite>)
    ensures !Truthy(apiUrl) ==> r == []
    ensures Truthy(apiUrl) ==> (
      |r| == 2
      && (forall i :: 0 <= i < 2 ==> r[i].source == REWRITTEN_PATHS[i])
      && (forall i :: 0 <= i < 2 ==> r[i].destination == DropTrailingSlash(apiUrl.value) + r[i].source))
  {
    if !Truthy(apiUrl) then []
    else
      var base := DropTrailingSlash(apiUrl.value);
      [Rewrite("/api/auth/forgot-password", base + "/api/auth/forgot-password"),
       Rewrite("/api/auth/reset-password", base + "/api/auth/reset-password")]
  }

  /** An API URL with or without its trailing '/' gives the same rules. */
  lemma RewritesIgnoreTrailingSlash(url: string)
    requires url != "" && url[|url| - 1] != '/'
    ensures Rewrites(Some(url + "/")) == Rewrites(Some(url))
  {
    assert (url + "/")[..|url + "/"| - 1] == url;
  }
}
