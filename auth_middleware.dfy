/** The authentication middleware: where the token is read from, how the
    `Authorization` header is parsed, and how each verification outcome is
    reported. `protect` rejects the request on any failure; `optionalAuth`
    never rejects and only attaches a user when everything succeeds. */
module AuthMiddleware {
  import opened Common
  import opened Text

  /** The two token sources of a request: the `token` cookie and the
      `Authorization` header, `None` when absent. */
  datatype AuthRequest = AuthRequest(cookieToken: Option<string>, authorization: Option<string>)

  /** The outcome of `jwt.verify` on a token: its decoded user id, or the
      library's `JsonWebTokenError`, `TokenExpiredError` or `NotBeforeError`. */
  datatype Verified = Decoded(id: Id) | Malformed | Expired | NotYetActive

  const BearerScheme: string := "Bearer"

  /** The token taken from the header: it must start with "Bearer", and the
      token is the second space-separated segment, if there is one. */
  function HeaderToken(header: string): (t: Option<string>)
    ensures t.Some? ==> StartsWith(header, BearerScheme) && t.value != "" && ' ' !in t.value
  {
    if header != "" && StartsWith(header, BearerScheme) then
      var parts := Split(header, ' ');
      if |parts| > 1 && parts[1] != "" then Some(parts[1]) else None
    else None
  }

  /** The token a request carries. A non-empty cookie takes precedence over
      the header; an empty string counts as no token. */
  function TokenOf(req: AuthRequest): (t: Option<string>)
    ensures req.cookieToken.Some? && req.cookieToken.value != "" ==> t == req.cookieToken
    ensures (req.cookieToken.None? || req.cookieToken.value == "") ==>
      t == (if req.authorization.Some? then HeaderToken(req.authorization.value) else None)
    ensures t.Some? ==> t.value != ""
  {
    if req.cookieToken.Some? && req.cookieToken.value != "" then req.cookieToken
    else if req.authorization.Some? then HeaderToken(req.authorization.value)
    else None
  }

  /** A header "Bearer <token>", possibly followed by more space-separated
      words, yields exactly the token. */
  lemma BearerHeaderYieldsToken(token: string, rest: string)
    requires token != "" && ' ' !in token
    requires rest == "" || rest[0] == ' '
    ensures HeaderToken(BearerScheme + " " + token + rest) == Some(token)
  {
    var header := BearerScheme + " " + token + rest;
    assert header == BearerScheme + [' '] + (token + rest);
    assert ' ' !in BearerScheme by {
      assert BearerScheme == ['B', 'e', 'a', 'r', 'e', 'r'];
    }
    SplitAfterHead(BearerScheme, ' ', token + rest);
    assert header[..|BearerScheme|] == BearerScheme;
    if rest == [] {
      assert token + rest == token;
      SplitWithoutSeparator(token, ' ');
    } else {
      assert token + rest == token + [' '] + rest[1..];
      SplitAfterHead(token, ' ', rest[1..]);
    }
  }

  /** A header that does not start with "Bearer" is ignored. */
  lemma OtherSchemeIgnored(header: string)
    requires !StartsWith(header, BearerScheme)
    ensures TokenOf(AuthRequest(None, Some(header))) == None
  {
  }

  /** `protect`: the id of the authenticated user, or the 401 (or, for a token
      that is not yet valid, the error passed on to the error handler). */
  function Protect(req: AuthRequest, verify: string -> Verified, userIds: set<Id>): (r: Result<Id>)
    ensures r.Ok? <==> TokenOf(req).Some? && verify(TokenOf(req).value).Decoded?
                       && verify(TokenOf(req).value).id in userIds
    ensures r.Ok? ==> r.value == verify(TokenOf(req).value).id && r.value in userIds
    ensures TokenOf(req).None? ==> r == Err(ApiError(Unauthorized, "Not authorized to access this route"))
    ensures TokenOf(req).Some? && verify(TokenOf(req).value).Malformed? ==> r == Err(ApiError(Unauthorized, "Invalid token"))
    ensures TokenOf(req).Some? && verify(TokenOf(req).value).Expired? ==> r == Err(ApiError(Unauthorized, "Token expired"))
    ensures TokenOf(req).Some? && verify(TokenOf(req).value).NotYetActive? ==> r == Err(ApiError(Internal, "jwt not active"))
    ensures TokenOf(req).Some? && verify(TokenOf(req).value).Decoded? && verify(TokenOf(req).value).id !in userIds ==>
      r == Err(ApiError(Unauthorized, "User not found"))
    ensures r.Err? && r.error.kind != Internal ==> r.error.kind == Unauthorized
  {
    match TokenOf(req)
    case None => Err(ApiError(Unauthorized, "Not authorized to access this route"))
    case Some(token) =>
      match verify(token)
      case Malformed => Err(ApiError(Unauthorized, "Invalid token"))
      case Expired => Err(ApiError(Unauthorized, "Token expired"))
      case NotYetActive => Err(ApiError(Internal, "jwt not active"))
      case Decoded(id) =>
        if id in userIds then Ok(id) else Err(ApiError(Unauthorized, "User not found"))
  }

  /** `optionalAuth`: never fails; attaches a user exactly when `protect`
      would have let the request through, and then the same user. */
  function OptionalAuth(req: AuthRequest, verify: string -> Verified, userIds: set<Id>): (u: Option<Id>)
    ensures u.Some? <==> Protect(req, verify, userIds).Ok?
    ensures u.Some? ==> u.value == Protect(req, verify, userIds).value
  {
    var token := TokenOf(req);
    if token.Some? then
      var decoded := verify(token.value);
      if decoded.Decoded? && decoded.id in userIds then Some(decoded.id) else None
    else None
  }
}
