/**
 * The shared auth client: the JWT kept in localStorage and the request `authFetch` builds from
 * it, with an `Authorization: Bearer <token>` header (section 2.1 of RFC 6750). Header names are
 * kept lower-cased and values stripped of surrounding HTTP white space, as a Headers object
 * stores them (the Fetch standard's header value normalisation).
 */
module AuthClient {
  import opened Wrappers
  import opened JsStrings
  import opened UrlParams

  /** A Headers object as its list of name/value pairs. */
  type Headers = seq<(string, string)>

  /** HTTP white space: tab, line feed, carriage return and space. */
  predicate IsHttpWhitespace(c: char) {
    c == '\t' || c == '\n' || c == '\r' || c == ' '
  }

  predicate AllHttpWhitespace(s: string) {
    forall i :: 0 <= i < |s| ==> IsHttpWhitespace(s[i])
  }

  /** Header value normalisation: leading and trailing HTTP white space is removed. */
  function NormalizeValue(v: string): (r: string)
    ensures |r| <= |v|
    ensures r == [] || (!IsHttpWhitespace(r[0]) && !IsHttpWhitespace(r[|r| - 1]))
    ensures v == [] || (!IsHttpWhitespace(v[0]) && !IsHttpWhitespace(v[|v| - 1])) ==> r == v
    decreases |v|
  {
    if v != [] && IsHttpWhitespace(v[0]) then NormalizeValue(v[1..])
    else if v != [] && IsHttpWhitespace(v[|v| - 1]) then NormalizeValue(v[..|v| - 1])
    else v
  }

  /** Nothing but HTTP white space normalises to the empty value. */
  lemma {:induction false} NormalizeWhitespace(w: string)
    requires AllHttpWhitespace(w)
    ensures NormalizeValue(w) == []
  {
    if w != [] {
      NormalizeWhitespace(w[1..]);
    }
  }

  /** Leading HTTP white space before a value that starts with something else is dropped. */
  lemma {:induction false} NormalizeLead(lead: string, m: string)
    requires AllHttpWhitespace(lead) && m != [] && !IsHttpWhitespace(m[0])
    ensures NormalizeValue(lead + m) == NormalizeValue(m)
  {
    if lead != [] {
      assert (lead + m)[1..] == lead[1..] + m;
      NormalizeLead(lead[1..], m);
    } else {
      assert lead + m == m;
    }
  }

  /** Trailing HTTP white space after a value with clean ends is dropped. */
  lemma {:induction false} NormalizeTrail(v: string, trail: string)
    requires AllHttpWhitespace(trail) && v != [] && !IsHttpWhitespace(v[0]) && !IsHttpWhitespace(v[|v| - 1])
    ensures NormalizeValue(v + trail) == v
  {
    if trail != [] {
      var s := v + trail;
      assert s[0] == v[0] && s[|s| - 1] == trail[|trail| - 1];
      assert s[..|s| - 1] == v + trail[..|trail| - 1];
      NormalizeTrail(v, trail[..|trail| - 1]);
    } else {
      assert v + trail == v;
    }
  }

  /** A value padded with HTTP white space on either side normalises to the value itself. */
  lemma NormalizeValuePadded(lead: string, v: string, trail: string)
    requires AllHttpWhitespace(lead) && AllHttpWhitespace(trail)
    requires v == [] || (!IsHttpWhitespace(v[0]) && !IsHttpWhitespace(v[|v| - 1]))
    ensures NormalizeValue(lead + v + trail) == v
  {
    if v == [] {
      assert lead + v + trail == lead + trail;
      NormalizeWhitespace(lead + trail);
    } else {
      assert lead + v + trail == lead + (v + trail);
      NormalizeLead(lead, v + trail);
      NormalizeTrail(v, trail);
    }
  }

  /**
   * `new Headers(init)`: header names are case-insensitive and kept lower-cased, and values are
   * normalised.
   */
  function HeadersFrom(init: seq<(string, string)>): (r: Headers)
    ensures |r| == |init|
    ensures forall i :: 0 <= i < |r| ==> r[i].0 == Lower(init[i].0) && r[i].1 == NormalizeValue(init[i].1)
  {
    seq(|init|, i requires 0 <= i < |init| => (Lower(init[i].0), NormalizeValue(init[i].1)))
  }

  /**
   * The headers of an authFetch request: the caller's, with the bearer token set when one is
   * stored (`set` normalises the value too, so white space after the token is dropped).
   */
  function AuthorizedHeaders(init: seq<(string, string)>, token: Option<string>): (r: Headers)
    ensures Truthy(token) ==> Get(r, "authorization") == Some(NormalizeValue("Bearer " + token.value))
    ensures !Truthy(token) ==> r == HeadersFrom(init)
  {
    var h := HeadersFrom(init);
    if Truthy(token) then SetParam(h, "authorization", NormalizeValue("Bearer " + token.value)) else h
  }

  /** A token with no white space at its end is sent exactly as stored, after 'Bearer '. */
  lemma BearerOfPlainToken(init: seq<(string, string)>, token: string)
    requires token != [] && !IsHttpWhitespace(token[|token| - 1])
    ensures Get(AuthorizedHeaders(init, Some(token)), "authorization") == Some("Bearer " + token)
  {
    var v := "Bearer " + token;
    assert v[0] == 'B' && v[|v| - 1] == token[|token| - 1];
  }

  /** Every header other than Authorization keeps the value the caller gave it. */
  lemma AuthorizedHeadersKeepOthers(init: seq<(string, string)>, token: Option<string>, name: string)
    requires name != "authorization"
    ensures Get(AuthorizedHeaders(init, token), name) == Get(HeadersFrom(init), name)
  {
    if Truthy(token) {
      GetSetOther(HeadersFrom(init), "authorization", NormalizeValue("Bearer " + token.value), name);
    }
  }

  /** The parts of the fetch call authFetch makes. */
  datatype Request = Request(url: string, credentials: string, headers: Headers)

  /** `process.env.NEXT_PUBLIC_API_URL || ''`. */
  function ApiBase(env: Option<string>): (r: string)
    ensures Truthy(env) ==> r == env.value
    ensures !Truthy(env) ==> r == ""
  {
    OrElse(env, "")
  }

  class TokenStore {
    /** Whether there is a window (false while rendering on the server). */
    const hasWindow: bool
    /** The localStorage entry under the JWT key. */
    var entry: Option<string>

    constructor(hasWindow: bool, entry: Option<string>)
      ensures this.hasWindow == hasWindow && this.entry == entry
    {
      this.hasWindow := hasWindow;
      this.entry := entry;
    }

    /** getStoredToken: null without a window. */
    function StoredToken(): (r: Option<string>)
      reads this
      ensures !hasWindow ==> r == None
      ensures hasWindow ==> r == entry
    {
      if hasWindow then entry else None
    }

    /** setStoredToken: does nothing without a window. */
    method SetStoredToken(token: string)
      modifies this
      ensures hasWindow ==> StoredToken() == Some(token)
      ensures !hasWindow ==> entry == old(entry)
    {
      if hasWindow {
        entry := Some(token);
      }
    }

    /** clearStoredToken: afterwards no token is read back. */
    method ClearStoredToken()
      modifies this
      ensures StoredToken() == None
      ensures !hasWindow ==> entry == old(entry)
    {
      if hasWindow {
        entry := None;
      }
    }

    /** authFetch: API base plus path, cookies always included, the stored token as bearer header. */
    function AuthFetch(env: Option<string>, path: string, init: seq<(string, string)>): (r: Request)
      reads this
      ensures r.url == ApiBase(env) + path
      ensures r.credentials == "include"
      ensures Truthy(StoredToken()) ==> Get(r.headers, "authorization") == Some(NormalizeValue("Bearer " + StoredToken().value))
      ensures !Truthy(StoredToken()) ==> r.headers == HeadersFrom(init)
    {
      Request(ApiBase(env) + path, "include", AuthorizedHeaders(init, StoredToken()))
    }
  }

  /** Without a window no request carries a bearer token, whatever localStorage would hold. */
  lemma NoWindowNoBearer(store: TokenStore, env: Option<string>, path: string, init: seq<(string, string)>)
    requires !store.hasWindow
    ensures store.AuthFetch(env, path, init).headers == HeadersFrom(init)
  {
  }
}
