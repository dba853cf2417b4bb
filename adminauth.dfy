/**
 * `adminLogin`: an administrator signs in with e-mail and password and gets
 * an access token. Only accounts whose role is admin are looked up, and
 * nothing is written: no refresh token is stored.
 */
module AdminAuth {
  import opened Wrappers
  import opened Http
  import opened Schemas
  import Accounts

  const MissingFields := ApiError(400, "Email and password required")
  const NotAdmin := ApiError(401, "Unauthorized")
  const BadCredentials := ApiError(401, "Invalid credentials")

  /** The account fields the answer carries; the password is not among them. */
  datatype AdminProfile = AdminProfile(id: Id, email: string, name: string, role: Role)
  datatype AdminSession = AdminSession(token: string, admin: AdminProfile)

  /** The filter `{email, role: "admin"}`, the e-mail lower-cased by the schema's setter. */
  function AdminFilter(email: Json): User -> bool {
    (u: User) => u.email == Accounts.EmailKey(email) && u.role == AdminRole
  }

  /**
   * `adminLogin`: both fields are required (400); no admin with that e-mail is
   * 401 "Unauthorized"; bcrypt must accept the password (401 "Invalid
   * credentials"); then the access token the JWT library signs.
   */
  function AdminLogin(db: Db, body: Body, crypto: Crypto, token: string): (r: Result<AdminSession>)
    ensures !Truthy(Get(body, "email")) || !Truthy(Get(body, "password")) ==> r == Err(MissingFields)
    ensures r == Err(NotAdmin) <==>
              && Truthy(Get(body, "email")) && Truthy(Get(body, "password"))
              && Accounts.FindOne(db, AdminFilter(body["email"])).None?
    ensures r == Err(BadCredentials) ==>
              && Accounts.FindOne(db, AdminFilter(body["email"])).Some?
              && body["password"].JStr?
              && !IsPasswordCorrect(db.users[Accounts.FindOne(db, AdminFilter(body["email"])).value], body["password"].s, crypto)
    ensures && Truthy(Get(body, "email")) && Truthy(Get(body, "password"))
            && Accounts.FindOne(db, AdminFilter(body["email"])).Some? ==>
              var u := db.users[Accounts.FindOne(db, AdminFilter(body["email"])).value];
              && (body["password"].JNum? ==> r.Err? && r.error.statusCode == 500)
              && (body["password"].JStr? ==>
                    && (r.Ok? <==> IsPasswordCorrect(u, body["password"].s, crypto))
                    && (!IsPasswordCorrect(u, body["password"].s, crypto) ==> r == Err(BadCredentials)))
    ensures r.Ok? ==>
              && Truthy(Get(body, "email")) && Truthy(Get(body, "password"))
              && Accounts.FindOne(db, AdminFilter(body["email"])).Some?
              && var u := db.users[Accounts.FindOne(db, AdminFilter(body["email"])).value];
                 && u.role == AdminRole && u.email == Accounts.EmailKey(body["email"])
                 && body["password"].JStr? && IsPasswordCorrect(u, body["password"].s, crypto)
                 && r.value == AdminSession(token, AdminProfile(u.id, u.email, u.name, u.role))
    ensures r.Err? ==> r.error.statusCode in {400, 401, 500}
  {
    if !Truthy(Get(body, "email")) || !Truthy(Get(body, "password")) then Err(MissingFields)
    else
      match Accounts.FindOne(db, AdminFilter(body["email"]))
      case None => Err(NotAdmin)
      case Some(k) =>
        var admin := db.users[k];
        match Accounts.CheckPassword(admin, Get(body, "password"), crypto)
        case Err(e) => Err(e)
        case Ok(false) => Err(BadCredentials)
        case Ok(true) => Ok(AdminSession(token, AdminProfile(admin.id, admin.email, admin.name, admin.role)))
  }

  /**
   * An ordinary user cannot sign in here even with the right password: the
   * e-mail is unique, so the only account with it is not an admin.
   */
  lemma UserAccountRefused(db: Db, body: Body, crypto: Crypto, token: string, k: Id)
    requires Valid(db) && k in db.users && db.users[k].role == UserRole
    requires Truthy(Get(body, "email")) && Truthy(Get(body, "password"))
    requires db.users[k].email == Accounts.EmailKey(body["email"])
    ensures AdminLogin(db, body, crypto, token) == Err(NotAdmin)
  {
    var p := AdminFilter(body["email"]);
    forall j | j in db.users
      ensures !p(db.users[j])
    {
      if db.users[j].email == db.users[k].email {
        assert j == k;
      }
    }
  }

  /** A successful admin sign-in is always an administrator's. */
  lemma OnlyAdminsSignIn(db: Db, body: Body, crypto: Crypto, token: string)
    requires AdminLogin(db, body, crypto, token).Ok?
    ensures AdminLogin(db, body, crypto, token).value.admin.role == AdminRole
  {
  }
}
