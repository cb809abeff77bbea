/** Credential handling: the HTTP guard (middleware/requireAuth.js), the
    socket handshake guard (socket/auth.js) and the claims a login or a
    registration signs (routes/auth.js `issueToken`).

    Signature checking and expiry belong to the JSON Web Token library and
    are a parameter here: `verify` maps a token to the claims it carries,
    or to `None` when the library rejects it. */
module Auth {
  import opened Base

  /** The claims the guards read from a verified token. `mongoId` is the
      `_id` claim; an absent claim is `Undefined`. */
  datatype Claims = Claims(
    id: JsValue,
    mongoId: JsValue,
    userId: JsValue,
    uid: JsValue,
    sub: JsValue,
    name: JsValue)

  // ---------------------------------------------------------------------
  // HTTP guard

  /** The token of an `Authorization` header: whatever follows the exact,
      case-sensitive prefix "Bearer ". `None` is "no token", which also
      covers a header that is exactly "Bearer ". */
  function BearerToken(authorization: Option<string>): (r: Option<string>)
    ensures r.Some? <==> authorization.Some? && StartsWith(authorization.value, "Bearer ")
                         && |authorization.value| > 7
    ensures r.Some? ==> authorization.value == "Bearer " + r.value && r.value != []
  {
    match authorization
    case None => None
    case Some(h) =>
      if StartsWith(h, "Bearer ") && |h| > 7 then
        assert h == h[..7] + h[7..];
        Some(h[7..])
      else None
  }

  /** The user id the guard takes from the claims: the first truthy one of
      `id`, `_id`, `userId` and `uid`, else `sub` when it is a string, else
      null. */
  function ClaimedUserId(c: Claims): (r: JsValue)
    ensures Truthy(c.id) ==> r == c.id
    ensures !Truthy(c.id) && Truthy(c.mongoId) ==> r == c.mongoId
    ensures !Truthy(c.id) && !Truthy(c.mongoId) && Truthy(c.userId) ==> r == c.userId
    ensures !Truthy(c.id) && !Truthy(c.mongoId) && !Truthy(c.userId) && Truthy(c.uid) ==> r == c.uid
    ensures !Truthy(c.id) && !Truthy(c.mongoId) && !Truthy(c.userId) && !Truthy(c.uid) ==>
              r == (if c.sub.Str? then c.sub else Null)
  {
    Or(c.id, Or(c.mongoId, Or(c.userId, Or(c.uid, if c.sub.Str? then c.sub else Null))))
  }

  /** `requireAuth`: the caller's user id (set as both `req.userId` and
      `req.user._id`), or a 401 with the guard's message. */
  function RequireAuth(authorization: Option<string>, verify: string -> Option<Claims>): (r: Reply<JsValue>)
    ensures BearerToken(authorization).None? ==> r == Fail(401, "No token")
    ensures BearerToken(authorization).Some? && verify(BearerToken(authorization).value).None? ==>
              r == Fail(401, "Invalid token")
    ensures r.Fail? ==> r.status == 401
    ensures r.Ok? <==> BearerToken(authorization).Some? && verify(BearerToken(authorization).value).Some?
                       && Truthy(ClaimedUserId(verify(BearerToken(authorization).value).value))
    ensures r.Ok? ==> Truthy(r.value) && r.value == ClaimedUserId(verify(BearerToken(authorization).value).value)
  {
    match BearerToken(authorization)
    case None => Fail(401, "No token")
    case Some(token) =>
      match verify(token)
      case None => Fail(401, "Invalid token")
      case Some(claims) =>
        var uid := ClaimedUserId(claims);
        if !Truthy(uid) then Fail(401, "Invalid token payload") else Ok(uid)
  }

  // ---------------------------------------------------------------------
  // Socket handshake guard

  /** What the handshake guard attaches to the socket: `_id` and `name` of
      the claims, nothing else. */
  datatype SocketUser = SocketUser(id: JsValue, name: JsValue)

  /** The second space-separated word of the `Authorization` header, of
      any scheme; `Undefined` when there is none. */
  function HeaderWord(authorization: Option<string>): (r: JsValue)
    ensures r.Undefined? || r.Str?
    ensures r.Str? ==> authorization.Some? && ' ' !in r.s
  {
    match authorization
    case None => Undefined
    case Some(h) =>
      var parts := Split(h, ' ');
      if |parts| > 1 then Str(parts[1]) else Undefined
  }

  /** The handshake token: `auth.token` when truthy, else the header word. */
  function HandshakeToken(authToken: JsValue, authorization: Option<string>): (r: JsValue)
    ensures Truthy(authToken) ==> r == authToken
    ensures !Truthy(authToken) ==> r == HeaderWord(authorization)
  {
    Or(authToken, HeaderWord(authorization))
  }

  /** The handshake guard: the socket user, or the "unauthorized" refusal
      (`None`) when there is no token, when the token is not a string (the
      library refuses it) or when verification fails. */
  function SocketAuth(authToken: JsValue, authorization: Option<string>, verify: string -> Option<Claims>): (r: Option<SocketUser>)
    ensures r.Some? <==> var t := HandshakeToken(authToken, authorization);
      Truthy(t) && t.Str? && verify(t.s).Some?
    ensures r.Some? ==> var c := verify(HandshakeToken(authToken, authorization).s).value;
      r.value == SocketUser(c.mongoId, c.name)
  {
    var token := HandshakeToken(authToken, authorization);
    if !Truthy(token) || !token.Str? then None
    else
      match verify(token.s)
      case None => None
      case Some(c) => Some(SocketUser(c.mongoId, c.name))
  }

  /** The user id a connection runs under: `String(user._id || "")`. The
      empty string makes the server drop the connection. */
  function ConnectionUserId(user: SocketUser): (r: string)
    ensures !Truthy(user.id) ==> r == []
    ensures user.id.Str? ==> r == user.id.s
  {
    JsString(Or(user.id, Str("")))
  }

  // ---------------------------------------------------------------------
  // Token issue

  /** The claims `issueToken` signs for a user: `sub` and `id`, both the
      user id as a string. A missing or empty secret is an error (`None`). */
  function IssuedClaims(userId: Id, secret: Option<string>): (r: Option<Claims>)
    ensures r.Some? <==> secret.Some? && secret.value != []
    ensures r.Some? ==> r.value.sub == Str(userId) && r.value.id == Str(userId)
    ensures r.Some? ==> r.value.mongoId == Undefined && r.value.name == Undefined
  {
    if secret.None? || secret.value == [] then None
    else Some(Claims(Str(userId), Undefined, Undefined, Undefined, Str(userId), Undefined))
  }

  /** A token issued at login passes the HTTP guard as its user. */
  lemma IssuedTokenPassesRequireAuth(userId: Id, secret: string, token: string, verify: string -> Option<Claims>)
    requires userId != [] && token != []
    requires IssuedClaims(userId, Some(secret)).Some?
    requires verify(token) == IssuedClaims(userId, Some(secret))
    ensures RequireAuth(Some("Bearer " + token), verify) == Ok(Str(userId))
  {
    assert StartsWith("Bearer " + token, "Bearer ");
    assert BearerToken(Some("Bearer " + token)) == Some(token);
  }

  /** The same token opens a socket whose user has no `_id` claim, so the
      connection runs under the empty user id and is dropped: the socket
      guard reads `_id`, which `issueToken` never signs. */
  lemma IssuedTokenDroppedBySocket(userId: Id, secret: string, token: string, verify: string -> Option<Claims>)
    requires token != []
    requires IssuedClaims(userId, Some(secret)).Some?
    requires verify(token) == IssuedClaims(userId, Some(secret))
    ensures SocketAuth(Str(token), None, verify) == Some(SocketUser(Undefined, Undefined))
    ensures ConnectionUserId(SocketUser(Undefined, Undefined)) == []
  {
  }
}
