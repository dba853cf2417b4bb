/**
 * Accounts: registration, login, logout and access-token refresh. A user's
 * `refreshToken` field holds the one refresh token that is currently valid;
 * login and refresh rotate it and logout clears it. JWT signing and
 * verification and bcrypt are parameters.
 */
module Accounts {
  import opened Wrappers
  import opened Http
  import opened Schemas
  import opened Access
  import Text

  const MissingFields := ApiError(400, "All fields are required")
  const EmailTaken := ApiError(409, "User with this email already exists")
  const MissingLogin := ApiError(400, "Username or email is required")
  const NoSuchUser := ApiError(404, "User does not exist")
  const WrongPassword := ApiError(401, "Invalid user password")
  const NotSignedIn := ApiError(401, "Unauthorized request")
  const NoRefreshToken := ApiError(400, "unauthorized request")
  const UnknownRefreshUser := ApiError(401, "Invalid refresh token")
  const StaleRefreshToken := ApiError(401, "Refresh token is expired or used")
  const TokenIssueFailed := ApiError(500, "Something went wrong while generating refresh and access tokens")
  const RefreshNotAString := ApiError(401, "jwt must be a string")
  /** bcrypt's rejections of a missing or a non-string candidate password. */
  const PasswordMissing := ApiError(500, "data and hash arguments required")
  const PasswordNotAString := ApiError(500, "data must be a string or Buffer and hash must be strings")

  /** The tokens `generateAccessToken` and `generateRefreshToken` sign during one call. */
  datatype Issued = Issued(accessToken: string, refreshToken: string)

  datatype Registered = Registered(id: Id, name: string, email: string)
  datatype LoginReply = LoginReply(user: Principal, accessToken: string, refreshToken: string)
  /** The refresh answer; `refreshToken` is `None` when the field is undefined. */
  datatype RefreshReply = RefreshReply(accessToken: string, refreshToken: Option<string>)

  /** The first user, in insertion order, among the ids `from .. n-1` that satisfies `p`. */
  function FirstMatch(users: map<Id, User>, p: User -> bool, from: nat, n: nat): (r: Option<Id>)
    ensures r.Some? ==>
              && from <= r.value < n && r.value in users && p(users[r.value])
              && forall k :: from <= k < r.value && k in users ==> !p(users[k])
    ensures r.None? ==> forall k :: from <= k < n && k in users ==> !p(users[k])
    decreases n - from
  {
    if from >= n then None
    else if from in users && p(users[from]) then Some(from)
    else FirstMatch(users, p, from + 1, n)
  }

  /** `findOne` returns the earliest match: any match with no earlier one is the one found. */
  lemma {:induction false} FirstMatchFinds(users: map<Id, User>, p: User -> bool, from: nat, n: nat, k: Id)
    requires from <= k < n && k in users && p(users[k])
    requires forall j :: from <= j < k && j in users ==> !p(users[j])
    ensures FirstMatch(users, p, from, n) == Some(k)
    decreases k - from
  {
    if from < k {
      FirstMatchFinds(users, p, from + 1, n, k);
    }
  }

  /** `User.findOne(filter)`: the earliest stored user the filter matches. */
  function FindOne(db: Db, p: User -> bool): Option<Id> {
    FirstMatch(db.users, p, 0, db.nextId)
  }

  /** An e-mail in a filter, after the schema's `lowercase` setter. */
  function EmailKey(v: Json): string {
    Text.Lower(CastString(v))
  }

  /** A name in a filter, after the schema's `trim` setter. */
  function NameKey(v: Json): string {
    Text.Trim(CastString(v))
  }

  /** The login filter: only the fields the body provides, `username` matched against `name`. */
  function LoginFilter(body: Body): User -> bool {
    (u: User) =>
      && (Truthy(Get(body, "email")) ==> u.email == EmailKey(body["email"]))
      && (Truthy(Get(body, "username")) ==> u.name == NameKey(body["username"]))
  }

  /** `isPasswordCorrect(password)`: bcrypt rejects a missing or a non-string candidate. */
  function CheckPassword(u: User, candidate: Option<Json>, crypto: Crypto): (r: Result<bool>)
    ensures r.Ok? <==> candidate.Some? && candidate.value.JStr?
    ensures r.Ok? ==> (r.value <==> IsPasswordCorrect(u, candidate.value.s, crypto))
    ensures r.Err? ==> r.error.statusCode == 500
  {
    match candidate
    case None => Err(PasswordMissing)
    case Some(JNum(_)) => Err(PasswordNotAString)
    case Some(JStr(p)) => Ok(IsPasswordCorrect(u, p, crypto))
  }

  /**
   * `register`: the three fields are required; an e-mail already stored (after
   * lower-casing) is refused with 409; a name that trims to nothing fails the
   * schema (500). A new user gets the role "user" and the hash of the password.
   */
  function Register(db: Db, body: Body, crypto: Crypto): (out: Step<Registered>)
    ensures (!Truthy(Get(body, "name")) || !Truthy(Get(body, "email")) || !Truthy(Get(body, "password")))
              ==> out == Step(db, Err(MissingFields))
    ensures out.reply.Err? ==> out.next == db
    ensures out.reply == Err(EmailTaken) <==>
              && Truthy(Get(body, "name")) && Truthy(Get(body, "email")) && Truthy(Get(body, "password"))
              && exists k :: k in db.users && db.users[k].email == EmailKey(body["email"])
    ensures out.reply.Ok? <==>
              && Truthy(Get(body, "name")) && Truthy(Get(body, "email")) && Truthy(Get(body, "password"))
              && (forall k :: k in db.users ==> db.users[k].email != EmailKey(body["email"]))
              && NameKey(body["name"]) != ""
    ensures out.reply == Err(ValidationFailed("User")) <==>
              && Truthy(Get(body, "name")) && Truthy(Get(body, "email")) && Truthy(Get(body, "password"))
              && (forall k :: k in db.users ==> db.users[k].email != EmailKey(body["email"]))
              && NameKey(body["name"]) == ""
    ensures out.reply.Ok? ==>
              && Truthy(Get(body, "name")) && Truthy(Get(body, "email")) && Truthy(Get(body, "password"))
              && (forall k :: k in db.users ==> db.users[k].email != EmailKey(body["email"]))
              && var u := User(db.nextId, NameKey(body["name"]), EmailKey(body["email"]),
                               crypto.hash(CastString(body["password"])), None, UserRole, None);
                 && u.name != ""
                 && out.next == db.(users := db.users[db.nextId := u], nextId := db.nextId + 1)
                 && out.reply.value == Registered(u.id, u.name, u.email)
    ensures Valid(db) ==> Valid(out.next)
  {
    match NewUser(db, body, crypto)
    case Err(e) => Step(db, Err(e))
    case Ok(u) =>
      var next := db.(users := db.users[db.nextId := u], nextId := db.nextId + 1);
      assert Valid(db) ==> Valid(next) by {
        if Valid(db) {
          Text.TrimIdempotent(CastString(body["name"]));
          Text.LowerIdempotent(CastString(body["email"]));
          AddUserKeepsValid(db, u);
        }
      }
      Step(next, Ok(Registered(u.id, u.name, u.email)))
  }

  /** The checks of `register`: the refusal, or the user document it saves. */
  function NewUser(db: Db, body: Body, crypto: Crypto): Result<User> {
    if !Truthy(Get(body, "name")) || !Truthy(Get(body, "email")) || !Truthy(Get(body, "password")) then
      Err(MissingFields)
    else
      var email := EmailKey(body["email"]);
      if exists k :: k in db.users && db.users[k].email == email then Err(EmailTaken)
      else
        var draft := User(db.nextId, NameKey(body["name"]), email, CastString(body["password"]), None, UserRole, None);
        if draft.name == "" then Err(ValidationFailed("User"))
        else Ok(PreSave(draft, true, crypto))
  }

  /**
   * `generateAccessTokenAndRefreshToken`: stores the new refresh token on the
   * user (the save hook leaves the password hash alone) and hands out both
   * tokens; an unknown id is a 500.
   */
  function IssueTokens(db: Db, userId: Id, issued: Issued, crypto: Crypto): (out: Step<Issued>)
    ensures out.reply.Ok? <==> userId in db.users
    ensures out.reply.Err? ==> out == Step(db, Err(TokenIssueFailed))
    ensures out.reply.Ok? ==>
              && out.reply.value == issued
              && out.next == db.(users := db.users[userId := db.users[userId].(refreshToken := Some(issued.refreshToken))])
    ensures Valid(db) ==> Valid(out.next)
  {
    if userId !in db.users then Step(db, Err(TokenIssueFailed))
    else
      var u := PreSave(db.users[userId].(refreshToken := Some(issued.refreshToken)), false, crypto);
      var next := db.(users := db.users[userId := u]);
      assert Valid(db) ==> Valid(next) by {
        if Valid(db) {
          ReplaceUserKeepsValid(db, userId, u);
        }
      }
      Step(next, Ok(issued))
  }

  /**
   * `loginUser`: at least one of username and e-mail; the earliest user the
   * filter matches; bcrypt must accept the password; then fresh tokens, the
   * new refresh token stored on the user.
   */
  function Login(db: Db, body: Body, crypto: Crypto, issued: Issued): (out: Step<LoginReply>)
    ensures !Truthy(Get(body, "username")) && !Truthy(Get(body, "email")) ==> out == Step(db, Err(MissingLogin))
    ensures out.reply.Err? ==> out.next == db
    ensures out.reply == Err(NoSuchUser) <==>
              (Truthy(Get(body, "username")) || Truthy(Get(body, "email"))) && FindOne(db, LoginFilter(body)).None?
    ensures out.reply == Err(WrongPassword) ==>
              && FindOne(db, LoginFilter(body)).Some?
              && Get(body, "password").Some? && body["password"].JStr?
              && !IsPasswordCorrect(db.users[FindOne(db, LoginFilter(body)).value], body["password"].s, crypto)
    ensures (Truthy(Get(body, "username")) || Truthy(Get(body, "email"))) && FindOne(db, LoginFilter(body)).Some? ==>
              var u := db.users[FindOne(db, LoginFilter(body)).value];
              && (Get(body, "password").None? || body["password"].JNum? ==>
                    out.next == db && out.reply.Err? && out.reply.error.statusCode == 500)
              && (Get(body, "password").Some? && body["password"].JStr? ==>
                    && (out.reply.Ok? <==> IsPasswordCorrect(u, body["password"].s, crypto))
                    && (!IsPasswordCorrect(u, body["password"].s, crypto) ==> out == Step(db, Err(WrongPassword))))
    ensures out.reply.Ok? ==>
              && (Truthy(Get(body, "username")) || Truthy(Get(body, "email")))
              && FindOne(db, LoginFilter(body)).Some?
              && var k := FindOne(db, LoginFilter(body)).value;
                 && Get(body, "password").Some? && body["password"].JStr?
                 && IsPasswordCorrect(db.users[k], body["password"].s, crypto)
                 && out.next == db.(users := db.users[k := db.users[k].(refreshToken := Some(issued.refreshToken))])
                 && out.reply.value == LoginReply(PrincipalOf(db.users[k]), issued.accessToken, issued.refreshToken)
    ensures Valid(db) ==> Valid(out.next)
  {
    if !Truthy(Get(body, "username")) && !Truthy(Get(body, "email")) then Step(db, Err(MissingLogin))
    else
      match FindOne(db, LoginFilter(body))
      case None => Step(db, Err(NoSuchUser))
      case Some(k) =>
        match CheckPassword(db.users[k], Get(body, "password"), crypto)
        case Err(e) => Step(db, Err(e))
        case Ok(false) => Step(db, Err(WrongPassword))
        case Ok(true) =>
          var s := IssueTokens(db, k, issued, crypto);
          Step(s.next, Ok(LoginReply(PrincipalOf(s.next.users[k]), issued.accessToken, issued.refreshToken)))
  }

  /** `logoutUser`: 401 without a signed-in user; otherwise the stored refresh token is removed. */
  function Logout(db: Db, user: Option<Principal>): (out: Step<()>)
    ensures user.None? ==> out == Step(db, Err(NotSignedIn))
    ensures user.Some? ==> out.reply == Ok(())
    ensures user.Some? && user.value.id in db.users ==>
              out.next == db.(users := db.users[user.value.id := db.users[user.value.id].(refreshToken := None)])
    ensures user.Some? && user.value.id !in db.users ==> out.next == db
    ensures Valid(db) ==> Valid(out.next)
  {
    if user.None? then Step(db, Err(NotSignedIn))
    else if user.value.id !in db.users then Step(db, Ok(()))
    else
      var id := user.value.id;
      var next := db.(users := db.users[id := db.users[id].(refreshToken := None)]);
      assert Valid(db) ==> Valid(next) by {
        if Valid(db) {
          ReplaceUserKeepsValid(db, id, db.users[id].(refreshToken := None));
        }
      }
      Step(next, Ok(()))
  }

  /** `req.cookies.refreshToken || req.body.refreshToken`. */
  function IncomingRefreshToken(cookies: map<string, string>, body: Body): Option<Json> {
    if "refreshToken" in cookies && cookies["refreshToken"] != "" then Some(JStr(cookies["refreshToken"]))
    else Get(body, "refreshToken")
  }

  /**
   * The checks and the rotation of `refreshAccessToken`: the presented token
   * must verify, name a stored user and equal the token stored on that user;
   * then a new pair is issued and the new refresh token replaces the old one.
   * Every failure after the presence check is a 401.
   */
  function Rotate(
    db: Db, cookies: map<string, string>, body: Body, decode: string -> Decoded,
    crypto: Crypto, issued: Issued): (out: Step<Issued>)
    ensures !Truthy(IncomingRefreshToken(cookies, body)) ==> out == Step(db, Err(NoRefreshToken))
    ensures out.reply.Err? ==> out.next == db && (out.reply.error == NoRefreshToken || out.reply.error.statusCode == 401)
    ensures out.reply.Ok? <==>
              && Truthy(IncomingRefreshToken(cookies, body))
              && IncomingRefreshToken(cookies, body).value.JStr?
              && var t := IncomingRefreshToken(cookies, body).value.s;
                 decode(t).Verified? && decode(t).userId in db.users && db.users[decode(t).userId].refreshToken == Some(t)
    ensures out.reply.Ok? ==>
              var k := decode(IncomingRefreshToken(cookies, body).value.s).userId;
              && out.reply.value == issued
              && out.next == db.(users := db.users[k := db.users[k].(refreshToken := Some(issued.refreshToken))])
    ensures Valid(db) ==> Valid(out.next)
  {
    var incoming := IncomingRefreshToken(cookies, body);
    if !Truthy(incoming) then Step(db, Err(NoRefreshToken))
    else
      match incoming.value
      case JNum(_) => Step(db, Err(RefreshNotAString))
      case JStr(t) =>
        match decode(t)
        case Invalid(reason) => Step(db, Err(ApiError(401, if reason != "" then reason else UnknownRefreshUser.message)))
        case Verified(k) =>
          if k !in db.users then Step(db, Err(UnknownRefreshUser))
          else if db.users[k].refreshToken != Some(t) then Step(db, Err(StaleRefreshToken))
          else
            var s := IssueTokens(db, k, issued, crypto);
            match s.reply
            case Err(e) => Step(db, Err(ApiError(401, e.message)))
            case Ok(pair) => Step(s.next, Ok(pair))
  }

  /**
   * `refreshAccessToken` as written: the handler destructures `newRefreshToken`
   * from an object whose field is `refreshToken`, so the answer carries no
   * refresh token although the stored one was rotated.
   */
  function RefreshAsWritten(
    db: Db, cookies: map<string, string>, body: Body, decode: string -> Decoded,
    crypto: Crypto, issued: Issued): (out: Step<RefreshReply>)
    ensures out.next == Rotate(db, cookies, body, decode, crypto, issued).next
    ensures out.reply.Ok? <==> Rotate(db, cookies, body, decode, crypto, issued).reply.Ok?
    ensures out.reply.Ok? ==> out.reply.value == RefreshReply(issued.accessToken, None)
  {
    var s := Rotate(db, cookies, body, decode, crypto, issued);
    match s.reply
    case Err(e) => Step(s.next, Err(e))
    case Ok(pair) => Step(s.next, Ok(RefreshReply(pair.accessToken, None)))
  }

  /** `refreshAccessToken` corrected: the answer carries the refresh token that was stored. */
  function Refresh(
    db: Db, cookies: map<string, string>, body: Body, decode: string -> Decoded,
    crypto: Crypto, issued: Issued): (out: Step<RefreshReply>)
    ensures out.next == Rotate(db, cookies, body, decode, crypto, issued).next
    ensures out.reply.Ok? <==> Rotate(db, cookies, body, decode, crypto, issued).reply.Ok?
    ensures out.reply.Ok? ==>
              && out.reply.value == RefreshReply(issued.accessToken, Some(issued.refreshToken))
              && exists k :: k in out.next.users && out.next.users[k].refreshToken == out.reply.value.refreshToken
  {
    var s := Rotate(db, cookies, body, decode, crypto, issued);
    match s.reply
    case Err(e) => Step(s.next, Err(e))
    case Ok(pair) =>
      var k := decode(IncomingRefreshToken(cookies, body).value.s).userId;
      assert k in s.next.users && s.next.users[k].refreshToken == Some(pair.refreshToken);
      Step(s.next, Ok(RefreshReply(pair.accessToken, Some(pair.refreshToken))))
  }

  /**
   * A user who has just registered can log in with the same e-mail and
   * password, provided bcrypt accepts a password against its own hash.
   */
  lemma {:induction false} RegisterThenLogin(db: Db, body: Body, crypto: Crypto, issued: Issued)
    requires Register(db, body, crypto).reply.Ok?
    requires body["password"].JStr?
    requires crypto.compare(body["password"].s, crypto.hash(body["password"].s))
    ensures var db1 := Register(db, body, crypto).next;
            var login := map["email" := body["email"], "password" := body["password"]];
            && Login(db1, login, crypto, issued).reply.Ok?
            && Login(db1, login, crypto, issued).reply.value.user.id == db.nextId
  {
    var db1 := Register(db, body, crypto).next;
    var login := map["email" := body["email"], "password" := body["password"]];
    var p := LoginFilter(login);
    var u := db1.users[db.nextId];
    assert Get(login, "username").None? && Get(login, "email") == Get(body, "email");
    assert p(u);
    forall j | 0 <= j < db.nextId && j in db1.users
      ensures !p(db1.users[j])
    {
      assert db1.users[j] == db.users[j];
    }
    FirstMatchFinds(db1.users, p, 0, db1.nextId, db.nextId);
    assert CheckPassword(u, Get(login, "password"), crypto) == Ok(true);
  }

  /** After a logout no refresh token is accepted for that user any more. */
  lemma LogoutRevokesRefresh(
    db: Db, user: Principal, cookies: map<string, string>, body: Body,
    decode: string -> Decoded, crypto: Crypto, issued: Issued)
    requires user.id in db.users
    requires var t := IncomingRefreshToken(cookies, body);
             t.Some? && t.value.JStr? && decode(t.value.s) == Verified(user.id)
    ensures var db1 := Logout(db, Some(user)).next;
            Rotate(db1, cookies, body, decode, crypto, issued).reply.Err?
  {
  }

  /**
   * The refresh token handed out by the corrected refresh is accepted by the
   * next refresh (when it verifies to the same user).
   */
  lemma {:induction false} RefreshChains(
    db: Db, cookies: map<string, string>, body: Body, decode: string -> Decoded,
    crypto: Crypto, issued: Issued, issued2: Issued)
    requires Refresh(db, cookies, body, decode, crypto, issued).reply.Ok?
    requires issued.refreshToken != ""
    requires decode(issued.refreshToken) == decode(IncomingRefreshToken(cookies, body).value.s)
    ensures var r := Refresh(db, cookies, body, decode, crypto, issued);
            var next := map["refreshToken" := r.reply.value.refreshToken.value];
            Refresh(r.next, next, map[], decode, crypto, issued2).reply.Ok?
  {
    var r := Refresh(db, cookies, body, decode, crypto, issued);
    var next := map["refreshToken" := r.reply.value.refreshToken.value];
    assert IncomingRefreshToken(next, map[]) == Some(JStr(issued.refreshToken));
  }

  /**
   * As written, a successful refresh leaves the client with no usable refresh
   * token: the answer has none, and the token it presented was rotated away.
   */
  lemma {:induction false} RefreshAsWrittenStrandsClient(
    db: Db, cookies: map<string, string>, body: Body, decode: string -> Decoded,
    crypto: Crypto, issued: Issued, issued2: Issued)
    requires RefreshAsWritten(db, cookies, body, decode, crypto, issued).reply.Ok?
    requires issued.refreshToken != IncomingRefreshToken(cookies, body).value.s
    ensures var r := RefreshAsWritten(db, cookies, body, decode, crypto, issued);
            && r.reply.value.refreshToken.None?
            && Rotate(r.next, cookies, body, decode, crypto, issued2).reply.Err?
  {
    var r := RefreshAsWritten(db, cookies, body, decode, crypto, issued);
    var k := decode(IncomingRefreshToken(cookies, body).value.s).userId;
    assert r.next.users[k].refreshToken == Some(issued.refreshToken);
  }
}
