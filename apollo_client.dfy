/** The client's `authLink`: every outgoing request gets the incoming headers with
    `authorization` replaced by "Bearer <token>" for a stored token, or by "". Together
    with the server's header parsing this is a round trip. */
module ApolloClient {
  import opened Wrappers
  import opened JsString
  import opened IdLists
  import opened UserModel
  import opened Auth

  type Headers = map<string, string>

  const AuthorizationKey: string := "authorization"

  /** The stored token (`localStorage.getItem("token")`, null when absent) as a header value. */
  function AuthorizationValue(token: Option<string>): (v: string)
    ensures Truthy(token) ==> v == "Bearer " + token.value
    ensures !Truthy(token) ==> v == ""
  {
    if Truthy(token) then "Bearer " + token.value else ""
  }

  /** The headers `authLink` returns: the incoming ones, with `authorization` overwritten. */
  function AuthHeaders(headers: Headers, token: Option<string>): (r: Headers)
    ensures r.Keys == headers.Keys + {AuthorizationKey}
    ensures forall k :: k in headers && k != AuthorizationKey ==> r[k] == headers[k]
    ensures r[AuthorizationKey] == AuthorizationValue(token)
  {
    headers[AuthorizationKey := AuthorizationValue(token)]
  }

  /** The server reads back exactly the token the client sent, when it has no space. */
  lemma {:induction false} HeaderRoundTrip(token: string)
    requires token != "" && ' ' !in token
    ensures HeaderToken(Some(AuthorizationValue(Some(token)))) == Some(token)
  {
    assert "Bearer " + token == "Bearer" + [' '] + token + "";
    assert StartsWith("Bearer", "Bearer");
    HeaderTokenOfShape("Bearer", token, "");
  }

  /** Without a stored token the header is "", which does not start with "Bearer". */
  lemma {:induction false} NoStoredTokenSendsNone(token: Option<string>)
    requires !Truthy(token)
    ensures HeaderToken(Some(AuthorizationValue(token))) == None
  {
    NoTokenWithoutSpace("");
  }

  /** End to end: a request without a cookie, carrying the headers `authLink` built from a
      space-free token, authenticates as the user the token names, if that user exists; and
      without a stored token it is anonymous. */
  lemma {:induction false} RequestAuthenticatesAsTokenUser(headers: Headers, token: Option<string>,
                                                          verify: Verifier, users: map<Id, User>)
    requires Truthy(token) ==> ' ' !in token.value
    ensures var req := Request(None, Some(AuthHeaders(headers, token)[AuthorizationKey]));
      && (!Truthy(token) ==> Authenticate(req, verify, users).None?)
      && (Truthy(token) && verify(token.value).Some? && verify(token.value).value in users ==>
            Authenticate(req, verify, users)
              == Some(Principal(verify(token.value).value, ProfileOf(users[verify(token.value).value]))))
  {
    if Truthy(token) {
      HeaderRoundTrip(token.value);
    } else {
      NoStoredTokenSendsNone(token);
    }
  }
}
