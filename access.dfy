/**
 * The access gate: `verifyJWT` picks the access token (Authorization header
 * first, then the `accessToken` cookie), verifies it and loads the user;
 * `isAdmin` lets only administrators through. JWT verification is a parameter.
 */
module Access {
  import opened Wrappers
  import opened Http
  import opened Schemas
  import Text

  /** What `jwt.verify` yields: the `_id` claim of a valid token, or the library's error message. */
  datatype Decoded = Verified(userId: Id) | Invalid(reason: string)

  /** `req.user`: the user document without `password` and `refreshToken`. */
  datatype Principal = Principal(id: Id, name: string, email: string, role: Role, bloodGroup: Option<string>)

  const NoToken := ApiError(401, "Unauthorized request")
  const UnknownUser := ApiError(401, "Invalid Access Token")
  const Forbidden := ApiError(403, "Forbidden Access")

  /** The middleware chain a route runs before its handler. */
  datatype Guard = Open | SignedIn | AdminOnly

  /** `select("-password -refreshToken")`. */
  function PrincipalOf(u: User): Principal {
    Principal(u.id, u.name, u.email, u.role, u.bloodGroup)
  }

  /** The Authorization header with the first `"Bearer "` removed. */
  function HeaderToken(authorization: Option<string>): Option<string> {
    match authorization
    case None => None
    case Some(h) => Some(Text.ReplaceFirst(h, "Bearer ", ""))
  }

  /** `tokenFromHeader || req.cookies?.accessToken`: an empty header token falls back to the cookie. */
  function SelectToken(authorization: Option<string>, cookies: map<string, string>): Option<string> {
    var fromHeader := HeaderToken(authorization);
    if fromHeader.Some? && fromHeader.value != "" then fromHeader
    else if "accessToken" in cookies then Some(cookies["accessToken"])
    else None
  }

  /**
   * `verifyJWT`: 401 without a token, 401 with the library's message (or the
   * default) when the token does not verify, 401 when no user has the token's
   * id; otherwise the user without its secrets.
   */
  function VerifyJwt(
    users: map<Id, User>, authorization: Option<string>, cookies: map<string, string>,
    decode: string -> Decoded): (r: Result<Principal>)
    ensures r.Err? ==> r.error.statusCode == 401
    ensures SelectToken(authorization, cookies) in {None, Some("")} ==> r == Err(NoToken)
    ensures r.Ok? <==>
              var t := SelectToken(authorization, cookies);
              t.Some? && t.value != "" && decode(t.value).Verified? && decode(t.value).userId in users
    ensures r.Ok? ==>
              var u := users[decode(SelectToken(authorization, cookies).value).userId];
              r.value == PrincipalOf(u) && r.value.id == u.id && r.value.role == u.role
  {
    var token := SelectToken(authorization, cookies);
    if token.None? || token.value == "" then Err(NoToken)
    else
      match decode(token.value)
      case Invalid(reason) => Err(ApiError(401, if reason != "" then reason else UnknownUser.message))
      case Verified(id) =>
        if id !in users then Err(UnknownUser) else Ok(PrincipalOf(users[id]))
  }

  /** `isAdmin`: 403 unless there is a user whose role is exactly admin. */
  function IsAdmin(user: Option<Principal>): (r: Result<Principal>)
    ensures r.Ok? <==> user.Some? && user.value.role == AdminRole
    ensures r.Ok? ==> r.value == user.value
    ensures r.Err? ==> r.error == Forbidden
  {
    if user.Some? && user.value.role == AdminRole then Ok(user.value) else Err(Forbidden)
  }

  /**
   * The guard of a route: nothing, `verifyJWT`, or `verifyJWT` then `isAdmin`.
   * A failure is 401 (not signed in) or 403 (signed in, not an administrator).
   */
  function Authorize(
    users: map<Id, User>, guard: Guard, authorization: Option<string>,
    cookies: map<string, string>, decode: string -> Decoded): (r: Result<Option<Principal>>)
    ensures guard == Open ==> r == Ok(None)
    ensures guard != Open ==>
              (r.Ok? ==> r.value.Some? && VerifyJwt(users, authorization, cookies, decode) == Ok(r.value.value))
    ensures guard == SignedIn ==> (r.Ok? <==> VerifyJwt(users, authorization, cookies, decode).Ok?)
    ensures guard == AdminOnly ==>
              (r.Ok? <==> VerifyJwt(users, authorization, cookies, decode).Ok?
                          && VerifyJwt(users, authorization, cookies, decode).value.role == AdminRole)
    ensures r.Err? ==> r.error.statusCode == 401 || r.error == Forbidden
  {
    if guard == Open then Ok(None)
    else
      match VerifyJwt(users, authorization, cookies, decode)
      case Err(e) => Err(e)
      case Ok(p) =>
        if guard == SignedIn then Ok(Some(p))
        else
          match IsAdmin(Some(p))
          case Err(e) => Err(e)
          case Ok(a) => Ok(Some(a))
  }

  /** A header of the form `"Bearer " + token` yields that token, whatever the cookies hold. */
  lemma HeaderTakesPrecedence(token: string, cookies: map<string, string>)
    requires token != ""
    ensures SelectToken(Some("Bearer " + token), cookies) == Some(token)
  {
    var h := "Bearer " + token;
    assert Text.MatchAt(h, "Bearer ", 0) by { assert h[0..|"Bearer "|] == "Bearer "; }
    Text.ReplaceFirstAt(h, "Bearer ", "", 0);
    assert h[..0] + "" + h[|"Bearer "|..] == token;
    assert HeaderToken(Some(h)) == Some(token);
  }

  /** A header that never mentions `"Bearer "` is taken as the token itself when it is not empty. */
  lemma BareHeaderIsToken(h: string, cookies: map<string, string>)
    requires h != "" && !Text.Contains(h, "Bearer ")
    ensures SelectToken(Some(h), cookies) == Some(h)
  {
    Text.ReplaceFirstAbsent(h, "Bearer ", "");
  }

  /** Without a usable header token, the cookie decides. */
  lemma CookieIsFallback(authorization: Option<string>, cookies: map<string, string>)
    requires HeaderToken(authorization) in {None, Some("")}
    ensures SelectToken(authorization, cookies) ==
              if "accessToken" in cookies then Some(cookies["accessToken"]) else None
  {
  }

  /** Without a user, or with any role but admin, `isAdmin` refuses with 403. */
  lemma IsAdminRefusesNonAdmins(user: Option<Principal>)
    requires user.None? || user.value.role != AdminRole
    ensures IsAdmin(user) == Err(Forbidden)
  {
  }
}
