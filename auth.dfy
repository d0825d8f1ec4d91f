/** The session guard: which token a request carries (the `token` cookie first, then an
    `Authorization: Bearer` header), resolving it to a stored user, and the three
    capability checks. Token verification is an oracle from token to user id. */
module Auth {
  import opened Wrappers
  import opened JsString
  import opened IdLists
  import opened UserModel

  /** The parts of an HTTP request `authenticate` looks at: the value of the `token`
      cookie and the `Authorization` header, each possibly absent. */
  datatype Request = Request(cookieToken: Option<string>, authorization: Option<string>)

  /** `jwt.verify` followed by reading `decoded.id`: the id a token names, or None when the
      token is malformed, badly signed or expired (the call that throws). */
  type Verifier = string -> Option<Id>

  /** The authenticated user: its id and its document as read without the password. */
  datatype Principal = Principal(id: Id, profile: Profile)

  const NotAuthenticated: string := "Not authenticated"
  const NotAuthorized: string := "Not authorized"
  const AdminRole: string := "Admin"

  /** `authorization.split(' ')[1]` when the header starts with "Bearer", if truthy. */
  function HeaderToken(header: Option<string>): (t: Option<string>)
    ensures t.Some? ==> header.Some? && StartsWith(header.value, "Bearer")
    ensures t.Some? ==> t.value != "" && ' ' !in t.value
  {
    if header.Some? && StartsWith(header.value, "Bearer") then
      var parts := Split(header.value, ' ');
      if |parts| > 1 && parts[1] != "" then Some(parts[1]) else None
    else
      None
  }

  /** The token `authenticate` goes on with: the cookie's when truthy, else the header's. */
  function SelectToken(req: Request): (t: Option<string>)
    ensures Truthy(t)
            || t.None?
    ensures Truthy(req.cookieToken) ==> t == req.cookieToken
    ensures !Truthy(req.cookieToken) ==> t == HeaderToken(req.authorization)
  {
    if Truthy(req.cookieToken) then req.cookieToken else HeaderToken(req.authorization)
  }

  /** `authenticate`: the stored user a request's token names, or None; it never fails. */
  function Authenticate(req: Request, verify: Verifier, users: map<Id, User>): (p: Option<Principal>)
    ensures SelectToken(req).None? ==> p.None?
    ensures p.Some? <==> SelectToken(req).Some? && verify(SelectToken(req).value).Some?
                         && verify(SelectToken(req).value).value in users
    ensures p.Some? ==> && verify(SelectToken(req).value) == Some(p.value.id)
                        && p.value.id in users
                        && p.value.profile == ProfileOf(users[p.value.id])
  {
    match SelectToken(req)
    case None => None
    case Some(token) =>
      match verify(token)
      case None => None
      case Some(id) => if id in users then Some(Principal(id, ProfileOf(users[id]))) else None
  }

  /** `isAuthenticated`: throws "Not authenticated" exactly for an anonymous caller. */
  function IsAuthenticated(user: Option<Principal>): (o: Outcome)
    ensures o.Pass? <==> user.Some?
    ensures o.Fail? ==> o.msg == NotAuthenticated
  {
    if user.None? then Fail(NotAuthenticated) else Pass
  }

  /** `isAdmin`: passes exactly for a caller whose role is "Admin"; an anonymous caller
      too gets "Not authorized". */
  function IsAdmin(user: Option<Principal>): (o: Outcome)
    ensures o.Pass? <==> user.Some? && user.value.profile.role == AdminRole
    ensures o.Fail? ==> o.msg == NotAuthorized
  {
    if user.None? || user.value.profile.role != AdminRole then Fail(NotAuthorized) else Pass
  }

  /** `isAdminOrSelf`: passes exactly for an Admin or for the user whose id is `userId`. */
  function IsAdminOrSelf(user: Option<Principal>, userId: Id): (o: Outcome)
    ensures o.Pass? <==> user.Some? && (user.value.profile.role == AdminRole || user.value.id == userId)
    ensures o.Fail? ==> o.msg == NotAuthorized
  {
    if user.None? || (user.value.profile.role != AdminRole && user.value.id != userId) then Fail(NotAuthorized)
    else Pass
  }

  /** The checks are ordered: admin implies admin-or-self implies authenticated. */
  lemma GuardsOrdered(user: Option<Principal>, userId: Id)
    ensures IsAdmin(user).Pass? ==> IsAdminOrSelf(user, userId).Pass?
    ensures IsAdminOrSelf(user, userId).Pass? ==> IsAuthenticated(user).Pass?
    ensures user.Some? ==> IsAdminOrSelf(user, user.value.id).Pass?
  {
  }

  /** A truthy cookie decides the token whatever the header says. */
  lemma CookieWins(cookie: string, h1: Option<string>, h2: Option<string>)
    requires cookie != ""
    ensures SelectToken(Request(Some(cookie), h1)) == SelectToken(Request(Some(cookie), h2)) == Some(cookie)
  {
  }

  /** A header made of a space-free part starting with "Bearer", a space, a non-empty
      space-free token, and then nothing or a further space, yields that token. */
  lemma {:induction false} HeaderTokenOfShape(prefix: string, token: string, rest: string)
    requires StartsWith(prefix, "Bearer") && ' ' !in prefix
    requires token != "" && ' ' !in token
    requires rest == "" || rest[0] == ' '
    ensures HeaderToken(Some(prefix + [' '] + token + rest)) == Some(token)
  {
    var h := prefix + [' '] + token + rest;
    assert h == prefix + [' '] + (token + rest);
    assert h[..6] == prefix[..6];
    SplitAtFirst(prefix, ' ', token + rest);
    if rest == "" {
      SplitWithoutSeparator(token, ' ');
      assert token + rest == token;
    } else {
      assert token + rest == token + [' '] + rest[1..];
      SplitAtFirst(token, ' ', rest[1..]);
    }
  }

  /** Conversely, every token a header yields comes from a header of that shape. */
  lemma HeaderTokenHasShape(h: string) returns (prefix: string, rest: string)
    requires HeaderToken(Some(h)).Some?
    ensures StartsWith(prefix, "Bearer") && ' ' !in prefix && (rest == "" || rest[0] == ' ')
    ensures h == prefix + [' '] + HeaderToken(Some(h)).value + rest
  {
    var parts := Split(h, ' ');
    JoinSplit(h, ' ');
    var tail := Join(parts[1..], ' ');
    assert h == parts[0] + [' '] + tail;
    prefix := parts[0];
    rest := if |parts| > 2 then [' '] + Join(parts[2..], ' ') else "";
    assert parts[1..][1..] == parts[2..];
    assert tail == parts[1] + rest;
    var k := |parts[0]|;
    assert h[k] == ' ';
    assert forall i :: 0 <= i < 6 ==> h[i] == "Bearer"[i] && h[i] != ' ';
    assert h[..6] == parts[0][..6];
    assert StartsWith(parts[0], "Bearer") && ' ' !in parts[0];
    assert HeaderToken(Some(h)).value == parts[1];
    assert rest == "" || rest[0] == ' ';
    assert h == parts[0] + [' '] + parts[1] + rest;
  }

  /** A header without a space yields no token: "Bearer" alone, "BearerX", the empty header. */
  lemma {:induction false} NoTokenWithoutSpace(h: string)
    requires ' ' !in h
    ensures HeaderToken(Some(h)) == None
  {
    SplitWithoutSeparator(h, ' ');
  }

  /** A second space right after the first leaves an empty segment, hence no token. */
  lemma {:induction false} NoTokenAfterDoubleSpace(prefix: string, rest: string)
    requires ' ' !in prefix
    ensures HeaderToken(Some(prefix + "  " + rest)) == None
  {
    assert prefix + "  " + rest == prefix + [' '] + ("" + [' '] + rest);
    SplitAtFirst(prefix, ' ', "" + [' '] + rest);
    SplitAtFirst("", ' ', rest);
  }

  lemma HeaderTokenExamples()
    ensures HeaderToken(Some("Bearer")) == None
    ensures HeaderToken(Some("BearerX")) == None
    ensures HeaderToken(Some("")) == None
    ensures HeaderToken(Some("Bearer  abc")) == None
    ensures HeaderToken(Some("BearerX abc")) == Some("abc")
  {
    NoTokenWithoutSpace("Bearer");
    NoTokenWithoutSpace("BearerX");
    NoTokenWithoutSpace("");
    NoTokenAfterDoubleSpace("Bearer", "abc");
    assert "Bearer" + "  " + "abc" == "Bearer  abc";
    HeaderTokenOfShape("BearerX", "abc", "");
    assert "BearerX" + [' '] + "abc" + "" == "BearerX abc";
  }

  /** Without a truthy cookie and without a token in the header, the caller is anonymous
      whatever the verifier and the users table. */
  lemma NoTokenIsAnonymous(req: Request, verify: Verifier, users: map<Id, User>)
    requires !Truthy(req.cookieToken) && HeaderToken(req.authorization).None?
    ensures Authenticate(req, verify, users).None?
  {
  }
}
