/** `get_or_create_session_id` of main.py: the anonymous visitor's session is
    the `session_id` cookie the browser sends, or a fresh token that the
    response asks the browser to keep. */
module Session {

  /** The name of the cookie that carries the session. */
  const SessionCookie := "session_id"

  /** A cookie a response asks the browser to set. */
  datatype Cookie = Cookie(value: string, httpOnly: bool)

  /** The cookies a response carries (`response.set_cookie`). */
  class Response {
    var setCookies: map<string, Cookie>

    constructor ()
      ensures setCookies == map[]
    {
      setCookies := map[];
    }
  }

  /** The request carries a usable session: the cookie is there and is not
      the empty string (Python's `not session_id` is true for both). */
  predicate HasSession(requestCookies: map<string, string>)
  {
    SessionCookie in requestCookies && requestCookies[SessionCookie] != ""
  }

  /** The session a request is served under. */
  function ResolvedSession(requestCookies: map<string, string>, freshToken: string): (s: string)
    ensures HasSession(requestCookies) ==> s == requestCookies[SessionCookie]
    ensures !HasSession(requestCookies) ==> s == freshToken
  {
    if HasSession(requestCookies) then requestCookies[SessionCookie] else freshToken
  }

  /** The cookie recorded on the response: the fresh token, http-only, and
      nothing when the request already had a session. */
  function IssuedCookies(requestCookies: map<string, string>, freshToken: string): (c: map<string, Cookie>)
    ensures c.Keys <= {SessionCookie}
    ensures HasSession(requestCookies) ==> c == map[]
    ensures !HasSession(requestCookies) ==> SessionCookie in c && c[SessionCookie] == Cookie(freshToken, true)
  {
    if HasSession(requestCookies) then map[] else map[SessionCookie := Cookie(freshToken, true)]
  }

  /** The browser's cookies on its next request, once it has stored the
      cookies a response set. */
  function NextRequestCookies(jar: map<string, string>, setCookies: map<string, Cookie>): (r: map<string, string>)
    ensures forall n :: n in r <==> n in jar || n in setCookies
    ensures forall n :: n in setCookies ==> r[n] == setCookies[n].value
    ensures forall n :: n in jar && n !in setCookies ==> r[n] == jar[n]
  {
    map n | n in jar.Keys + setCookies.Keys :: if n in setCookies then setCookies[n].value else jar[n]
  }

  /** `get_or_create_session_id(request, response)`, with `uuid4()` given as
      `freshToken`. */
  method GetOrCreateSessionId(requestCookies: map<string, string>, response: Response, freshToken: string)
    returns (sessionId: string)
    modifies response
    ensures HasSession(requestCookies) ==> sessionId == requestCookies[SessionCookie]
    ensures !HasSession(requestCookies) ==> sessionId == freshToken
    ensures sessionId == ResolvedSession(requestCookies, freshToken)
    ensures response.setCookies == old(response.setCookies) + IssuedCookies(requestCookies, freshToken)
  {
    var incoming := if SessionCookie in requestCookies then requestCookies[SessionCookie] else "";
    sessionId := incoming;
    if incoming == "" {
      sessionId := freshToken;
      response.setCookies := response.setCookies[SessionCookie := Cookie(sessionId, true)];
    }
  }

  /** A session, once issued and stored by the browser, is the one the next
      request is served under, and no new cookie is issued for it. */
  lemma SessionSticks(jar: map<string, string>, freshToken: string, laterToken: string)
    requires freshToken != ""
    ensures var next := NextRequestCookies(jar, IssuedCookies(jar, freshToken));
      && ResolvedSession(next, laterToken) == ResolvedSession(jar, freshToken)
      && IssuedCookies(next, laterToken) == map[]
  {
  }
}
