/**
 * The API as a whole: every route with the guard its router puts in front of
 * the handler, the dispatch of one request against the database, runs of many
 * requests, and the `Store` whose tables the handlers update in place.
 */
module Ledger {
  import opened Wrappers
  import opened Http
  import opened Schemas
  import opened Access
  import BloodRequests
  import Donations
  import InventoryLedger
  import Accounts
  import AdminAuth

  /** The mounted routes; the path parameters the handlers read are carried along. */
  datatype Route =
    | RegisterRoute | LoginRoute | LogoutRoute | RefreshRoute | AdminLoginRoute
    | CreateRequest | MyRequests | AllRequests | ApproveRequest(requestId: Id) | RejectRequest(requestId: Id)
    | BookDonation | MyDonations | AllDonations | ApproveDonation(donationId: Id) | RejectDonation(donationId: Id)
    | GetInventory | PutInventory | PutInventoryById(pathId: string)

  /** The middleware chain of each route: none, `verifyJWT`, or `verifyJWT` then `isAdmin`. */
  function GuardOf(route: Route): Guard {
    match route
    case RegisterRoute => Open
    case LoginRoute => Open
    case RefreshRoute => Open
    case AdminLoginRoute => Open
    case LogoutRoute => SignedIn
    case CreateRequest => SignedIn
    case MyRequests => SignedIn
    case BookDonation => SignedIn
    case MyDonations => SignedIn
    case _ => AdminOnly
  }

  /** An HTTP request as the handlers see it. */
  datatype Request = Request(
    route: Route, authorization: Option<string>, cookies: map<string, string>, body: Body)

  /** The collaborators outside the model: the two JWT verifiers and bcrypt. */
  datatype Env = Env(decodeAccess: string -> Decoded, decodeRefresh: string -> Decoded, crypto: Crypto)

  /** The `data` of a successful answer. */
  datatype Payload =
    | UserCreated(registered: Accounts.Registered)
    | LoggedIn(login: Accounts.LoginReply)
    | LoggedOut
    | Refreshed(refresh: Accounts.RefreshReply)
    | AdminSignedIn(session: AdminAuth.AdminSession)
    | RequestRecord(request: BloodRequest)
    | RequestList(requests: seq<BloodRequest>)
    | RequestApproval(requestApproval: BloodRequests.Approval)
    | DonationRecord(donation: Appointment)
    | DonationList(donations: seq<Appointment>)
    | DonationApproval(donationApproval: Donations.Approval)
    | Stock(records: seq<InventoryRecord>)
    | StockRecord(record: InventoryRecord)

  /** A handler's answer wrapped as a payload; errors pass through unchanged. */
  function LiftReply<T>(r: Result<T>, f: T -> Payload): Result<Payload> {
    match r
    case Ok(v) => Ok(f(v))
    case Err(e) => Err(e)
  }

  function Lift<T>(s: Step<T>, f: T -> Payload): Step<Payload> {
    Step(s.next, LiftReply(s.reply, f))
  }

  /** Whether the caller's access token names a stored administrator. */
  predicate CallerIsAdmin(db: Db, req: Request, env: Env) {
    var v := VerifyJwt(db.users, req.authorization, req.cookies, env.decodeAccess);
    v.Ok? && v.value.role == AdminRole
  }

  /** The routes whose handler only reads. */
  predicate ReadOnly(route: Route) {
    route.MyRequests? || route.AllRequests? || route.MyDonations? || route.AllDonations?
    || route.GetInventory? || route.AdminLoginRoute?
  }

  /** The routes that write the inventory with a value of the caller's choosing. */
  predicate SetsStock(route: Route) {
    route.PutInventory? || route.PutInventoryById?
  }

  /** The routes whose handler may write the blood requests. */
  predicate WritesRequests(route: Route) {
    route.CreateRequest? || route.ApproveRequest? || route.RejectRequest?
  }

  /** The routes whose handler may write the appointments. */
  predicate WritesDonations(route: Route) {
    route.BookDonation? || route.ApproveDonation? || route.RejectDonation?
  }

  /** The routes whose handler may write the inventory. */
  predicate WritesStock(route: Route) {
    route.ApproveRequest? || route.ApproveDonation? || SetsStock(route)
  }

  /** A request that was approved or rejected. */
  predicate RequestClosed(db: Db, k: Id) {
    k in db.requests && db.requests[k].status != Pending
  }

  /** An appointment that was approved or rejected. */
  predicate DonationClosed(db: Db, k: Id) {
    k in db.donations && db.donations[k].status != Pending
  }

  /** Every group holds a non-negative count. */
  predicate StockNonNegative(inventory: map<string, int>) {
    forall g :: g in inventory ==> inventory[g] >= 0
  }

  /** The account routes. */
  predicate AccountRoute(route: Route) {
    route.RegisterRoute? || route.LoginRoute? || route.LogoutRoute? || route.RefreshRoute? || route.AdminLoginRoute?
  }

  /** The blood-request routes. */
  predicate RequestRoute(route: Route) {
    route.CreateRequest? || route.MyRequests? || route.AllRequests? || route.ApproveRequest? || route.RejectRequest?
  }

  /** The donation routes. */
  predicate DonationRoute(route: Route) {
    route.BookDonation? || route.MyDonations? || route.AllDonations? || route.ApproveDonation? || route.RejectDonation?
  }

  /** The handlers of the account routes: only the users and the id counter change. */
  function ServeAccount(db: Db, req: Request, user: Option<Principal>, env: Env, issued: Accounts.Issued): (out: Step<Payload>)
    requires AccountRoute(req.route)
    ensures Valid(db) ==> Valid(out.next)
    ensures out.next.requests == db.requests && out.next.donations == db.donations
    ensures out.next.inventory == db.inventory
    ensures req.route.AdminLoginRoute? ==> out.next == db
  {
    match req.route
    case RegisterRoute =>
      Lift(Accounts.Register(db, req.body, env.crypto), (v: Accounts.Registered) => UserCreated(v))
    case LoginRoute =>
      Lift(Accounts.Login(db, req.body, env.crypto, issued), (v: Accounts.LoginReply) => LoggedIn(v))
    case LogoutRoute =>
      Lift(Accounts.Logout(db, user), (v: ()) => LoggedOut)
    case RefreshRoute =>
      Lift(Accounts.Refresh(db, req.cookies, req.body, env.decodeRefresh, env.crypto, issued),
           (v: Accounts.RefreshReply) => Refreshed(v))
    case AdminLoginRoute =>
      Step(db, LiftReply(AdminAuth.AdminLogin(db, req.body, env.crypto, issued.accessToken),
                         (v: AdminAuth.AdminSession) => AdminSignedIn(v)))
  }

  /**
   * The handlers of the blood-request routes: a closed request stays closed
   * (creation takes a fresh id) and is never approved again; the inventory
   * changes only on an approval.
   */
  function ServeRequest(db: Db, req: Request, user: Option<Principal>): (out: Step<Payload>)
    requires RequestRoute(req.route)
    requires !req.route.AllRequests? && !req.route.ApproveRequest? && !req.route.RejectRequest? ==> user.Some?
    ensures Valid(db) ==> Valid(out.next)
    ensures out.next.donations == db.donations && out.next.users == db.users
    ensures !req.route.ApproveRequest? ==> out.next.inventory == db.inventory
    ensures req.route.MyRequests? || req.route.AllRequests? ==> out.next == db
    ensures req.route.ApproveRequest? && out.reply.Ok? ==> RequestClosed(out.next, req.route.requestId)
    ensures Valid(db) ==> forall k :: RequestClosed(db, k) ==> RequestClosed(out.next, k)
    ensures req.route.ApproveRequest? && RequestClosed(db, req.route.requestId) ==> out.reply.Err?
    ensures StockNonNegative(db.inventory) ==> StockNonNegative(out.next.inventory)
  {
    match req.route
    case CreateRequest =>
      Lift(BloodRequests.Create(db, user.value.id, req.body), (v: BloodRequest) => RequestRecord(v))
    case MyRequests => Step(db, Ok(RequestList(BloodRequests.ListMine(db, user.value.id))))
    case AllRequests => Step(db, Ok(RequestList(BloodRequests.ListAll(db))))
    case ApproveRequest(id) =>
      Lift(BloodRequests.Approve(db, id), (v: BloodRequests.Approval) => RequestApproval(v))
    case RejectRequest(id) =>
      Lift(BloodRequests.Reject(db, id), (v: BloodRequest) => RequestRecord(v))
  }

  /**
   * The handlers of the donation routes: a closed appointment stays closed
   * (booking takes a fresh id) and is never approved again; the inventory
   * changes only on an approval.
   */
  function ServeDonation(db: Db, req: Request, user: Option<Principal>): (out: Step<Payload>)
    requires DonationRoute(req.route)
    requires !req.route.AllDonations? && !req.route.ApproveDonation? && !req.route.RejectDonation? ==> user.Some?
    ensures Valid(db) ==> Valid(out.next)
    ensures out.next.requests == db.requests && out.next.users == db.users
    ensures !req.route.ApproveDonation? ==> out.next.inventory == db.inventory
    ensures req.route.MyDonations? || req.route.AllDonations? ==> out.next == db
    ensures req.route.ApproveDonation? && out.reply.Ok? ==> DonationClosed(out.next, req.route.donationId)
    ensures Valid(db) ==> forall k :: DonationClosed(db, k) ==> DonationClosed(out.next, k)
    ensures req.route.ApproveDonation? && DonationClosed(db, req.route.donationId) ==> out.reply.Err?
    ensures StockNonNegative(db.inventory) ==> StockNonNegative(out.next.inventory)
  {
    match req.route
    case BookDonation =>
      Lift(Donations.Book(db, user.value.id, req.body), (v: Appointment) => DonationRecord(v))
    case MyDonations => Step(db, Ok(DonationList(Donations.ListMine(db, user.value.id))))
    case AllDonations => Step(db, Ok(DonationList(Donations.ListAll(db))))
    case ApproveDonation(id) =>
      Lift(Donations.Approve(db, id), (v: Donations.Approval) => DonationApproval(v))
    case RejectDonation(id) =>
      Lift(Donations.Reject(db, id), (v: Appointment) => DonationRecord(v))
  }

  /** The handlers of the inventory routes; the `:id` of the second PUT is not read. */
  function ServeInventory(db: Db, req: Request): (out: Step<Payload>)
    requires req.route.GetInventory? || SetsStock(req.route)
    ensures Valid(db) ==> Valid(out.next)
    ensures out.next.requests == db.requests && out.next.donations == db.donations
    ensures out.next.users == db.users
    ensures req.route.GetInventory? ==> out.next == db
  {
    if req.route.GetInventory? then Step(db, Ok(Stock(InventoryLedger.List(db.inventory))))
    else Lift(InventoryLedger.Update(db, req.body), (v: InventoryRecord) => StockRecord(v))
  }

  /**
   * The handler of a route once its guard let the request through; `user` is
   * what `verifyJWT` put on the request. The access token of an admin sign-in
   * is the access token the call issues.
   */
  function Serve(db: Db, req: Request, user: Option<Principal>, env: Env, issued: Accounts.Issued): (out: Step<Payload>)
    requires GuardOf(req.route) != Open ==> user.Some?
    ensures Valid(db) ==> Valid(out.next)
    ensures ReadOnly(req.route) ==> out.next == db
    ensures !WritesRequests(req.route) ==> out.next.requests == db.requests
    ensures !WritesDonations(req.route) ==> out.next.donations == db.donations
    ensures !WritesStock(req.route) ==> out.next.inventory == db.inventory
    ensures req.route.ApproveRequest? && out.reply.Ok? ==> RequestClosed(out.next, req.route.requestId)
    ensures req.route.ApproveDonation? && out.reply.Ok? ==> DonationClosed(out.next, req.route.donationId)
    ensures Valid(db) ==> forall k :: RequestClosed(db, k) ==> RequestClosed(out.next, k)
    ensures Valid(db) ==> forall k :: DonationClosed(db, k) ==> DonationClosed(out.next, k)
    ensures req.route.ApproveRequest? && RequestClosed(db, req.route.requestId) ==> out.reply.Err?
    ensures req.route.ApproveDonation? && DonationClosed(db, req.route.donationId) ==> out.reply.Err?
    ensures StockNonNegative(db.inventory) && !SetsStock(req.route) ==> StockNonNegative(out.next.inventory)
  {
    if AccountRoute(req.route) then ServeAccount(db, req, user, env, issued)
    else if RequestRoute(req.route) then ServeRequest(db, req, user)
    else if DonationRoute(req.route) then ServeDonation(db, req, user)
    else ServeInventory(db, req)
  }

  /**
   * One request: the route's guard, then its handler. A request the guard
   * refuses changes nothing: a caller who is not an administrator cannot reach
   * any admin route (401 without a valid token, 403 with one).
   */
  function Dispatch(db: Db, req: Request, env: Env, issued: Accounts.Issued): (out: Step<Payload>)
    ensures Valid(db) ==> Valid(out.next)
    ensures ReadOnly(req.route) ==> out.next == db
    ensures GuardOf(req.route) == AdminOnly && !CallerIsAdmin(db, req, env) ==>
              && out.next == db && out.reply.Err?
              && out.reply.error.statusCode in {401, 403}
    ensures GuardOf(req.route) != Open && VerifyJwt(db.users, req.authorization, req.cookies, env.decodeAccess).Err? ==>
              out == Step(db, Err(VerifyJwt(db.users, req.authorization, req.cookies, env.decodeAccess).error))
  {
    match Authorize(db.users, GuardOf(req.route), req.authorization, req.cookies, env.decodeAccess)
    case Err(e) => Step(db, Err(e))
    case Ok(user) => Serve(db, req, user, env, issued)
  }

  /**
   * One request never reopens a closed request or appointment, and never
   * approves one again; a successful approval closes what it approved.
   */
  lemma DispatchKeepsClosed(db: Db, req: Request, env: Env, issued: Accounts.Issued, k: Id)
    requires Valid(db)
    ensures var out := Dispatch(db, req, env, issued);
            && (RequestClosed(db, k) ==> RequestClosed(out.next, k))
            && (DonationClosed(db, k) ==> DonationClosed(out.next, k))
            && (req.route == ApproveRequest(k) && RequestClosed(db, k) ==> out.reply.Err?)
            && (req.route == ApproveDonation(k) && DonationClosed(db, k) ==> out.reply.Err?)
            && (req.route == ApproveRequest(k) && out.reply.Ok? ==> RequestClosed(out.next, k))
            && (req.route == ApproveDonation(k) && out.reply.Ok? ==> DonationClosed(out.next, k))
  {
    match Authorize(db.users, GuardOf(req.route), req.authorization, req.cookies, env.decodeAccess)
    case Err(_) =>
    case Ok(user) =>
  }

  /**
   * Outside the two routes where an administrator sets a count outright, no
   * request makes a count negative: approvals draw only what is in stock and
   * donations add one.
   */
  lemma StepKeepsStock(db: Db, req: Request, env: Env, issued: Accounts.Issued)
    requires StockNonNegative(db.inventory) && !SetsStock(req.route)
    ensures StockNonNegative(Dispatch(db, req, env, issued).next.inventory)
  {
    match Authorize(db.users, GuardOf(req.route), req.authorization, req.cookies, env.decodeAccess)
    case Err(_) =>
    case Ok(user) =>
  }

  /** The `:id` of `PUT /inventory/:id` is never read: the route behaves as `PUT /inventory`. */
  lemma PathIdIgnored(db: Db, req: Request, env: Env, issued: Accounts.Issued, pathId: string)
    requires req.route == PutInventoryById(pathId)
    ensures Dispatch(db, req, env, issued) == Dispatch(db, req.(route := PutInventory), env, issued)
  {
    assert GuardOf(req.route) == GuardOf(PutInventory);
  }

  /** A request together with the tokens the JWT library would sign while it is handled. */
  datatype Call = Call(request: Request, issued: Accounts.Issued)

  /** The steps of a run of calls, one per call, each from the state the previous one left. */
  function Run(db: Db, calls: seq<Call>, env: Env): (trace: seq<Step<Payload>>)
    ensures |trace| == |calls|
    decreases |calls|
  {
    if calls == [] then []
    else
      var s := Dispatch(db, calls[0].request, env, calls[0].issued);
      [s] + Run(s.next, calls[1..], env)
  }

  /** The steps after the `i`-th are the run of the remaining calls from the state it left. */
  lemma {:induction false} RunSuffix(db: Db, calls: seq<Call>, env: Env, i: nat)
    requires i < |calls|
    ensures Run(db, calls, env)[i + 1..] == Run(Run(db, calls, env)[i].next, calls[i + 1..], env)
    decreases i
  {
    var s := Dispatch(db, calls[0].request, env, calls[0].issued);
    var rest := Run(s.next, calls[1..], env);
    assert Run(db, calls, env) == [s] + rest;
    if i > 0 {
      RunSuffix(s.next, calls[1..], env, i - 1);
      assert Run(db, calls, env)[i] == rest[i - 1];
      assert Run(db, calls, env)[i + 1..] == rest[i..];
      assert calls[1..][i..] == calls[i + 1..];
    } else {
      assert Run(db, calls, env)[1..] == rest;
    }
  }

  /** Every state of a run from a valid database is valid. */
  lemma {:induction false} RunKeepsValid(db: Db, calls: seq<Call>, env: Env)
    requires Valid(db)
    ensures forall i :: 0 <= i < |calls| ==> Valid(Run(db, calls, env)[i].next)
    decreases |calls|
  {
    if calls != [] {
      var s := Dispatch(db, calls[0].request, env, calls[0].issued);
      RunKeepsValid(s.next, calls[1..], env);
      forall i | 0 <= i < |calls|
        ensures Valid(Run(db, calls, env)[i].next)
      {
        if i > 0 {
          assert Run(db, calls, env)[i] == Run(s.next, calls[1..], env)[i - 1];
        }
      }
    }
  }

  /** The state a run has reached before its `i`-th call. */
  function StateBefore(db: Db, calls: seq<Call>, env: Env, i: nat): Db
    requires i <= |calls|
  {
    if i == 0 then db else Run(db, calls, env)[i - 1].next
  }

  /** The `i`-th step of a run is the dispatch of the `i`-th call from the state before it. */
  lemma RunAt(db: Db, calls: seq<Call>, env: Env, i: nat)
    requires i < |calls|
    ensures Run(db, calls, env)[i] == Dispatch(StateBefore(db, calls, env, i), calls[i].request, env, calls[i].issued)
  {
    var before := StateBefore(db, calls, env, i);
    var rest := Run(before, calls[i..], env);
    if i > 0 {
      RunSuffix(db, calls, env, i - 1);
      assert Run(db, calls, env)[i..] == rest;
    }
    assert rest == [Dispatch(before, calls[i].request, env, calls[i].issued)] + Run(rest[0].next, calls[i + 1..], env) by {
      assert calls[i..][0] == calls[i] && calls[i..][1..] == calls[i + 1..];
    }
  }

  /** Over a whole run, a closed request stays closed and every approval of it is refused. */
  lemma {:induction false} RequestStaysClosed(db: Db, calls: seq<Call>, env: Env, k: Id)
    requires Valid(db) && RequestClosed(db, k)
    ensures forall i :: 0 <= i < |calls| ==> RequestClosed(Run(db, calls, env)[i].next, k)
    ensures forall i :: 0 <= i < |calls| && calls[i].request.route == ApproveRequest(k) ==>
              Run(db, calls, env)[i].reply.Err?
    decreases |calls|
  {
    if calls != [] {
      var s := Dispatch(db, calls[0].request, env, calls[0].issued);
      DispatchKeepsClosed(db, calls[0].request, env, calls[0].issued, k);
      RequestStaysClosed(s.next, calls[1..], env, k);
      forall i | 0 <= i < |calls|
        ensures RequestClosed(Run(db, calls, env)[i].next, k)
        ensures calls[i].request.route == ApproveRequest(k) ==> Run(db, calls, env)[i].reply.Err?
      {
        if i > 0 {
          assert Run(db, calls, env)[i] == Run(s.next, calls[1..], env)[i - 1];
          assert calls[i] == calls[1..][i - 1];
        }
      }
    }
  }

  /** Over a whole run, a closed appointment stays closed and every approval of it is refused. */
  lemma {:induction false} DonationStaysClosed(db: Db, calls: seq<Call>, env: Env, k: Id)
    requires Valid(db) && DonationClosed(db, k)
    ensures forall i :: 0 <= i < |calls| ==> DonationClosed(Run(db, calls, env)[i].next, k)
    ensures forall i :: 0 <= i < |calls| && calls[i].request.route == ApproveDonation(k) ==>
              Run(db, calls, env)[i].reply.Err?
    decreases |calls|
  {
    if calls != [] {
      var s := Dispatch(db, calls[0].request, env, calls[0].issued);
      DispatchKeepsClosed(db, calls[0].request, env, calls[0].issued, k);
      DonationStaysClosed(s.next, calls[1..], env, k);
      forall i | 0 <= i < |calls|
        ensures DonationClosed(Run(db, calls, env)[i].next, k)
        ensures calls[i].request.route == ApproveDonation(k) ==> Run(db, calls, env)[i].reply.Err?
      {
        if i > 0 {
          assert Run(db, calls, env)[i] == Run(s.next, calls[1..], env)[i - 1];
          assert calls[i] == calls[1..][i - 1];
        }
      }
    }
  }

  /**
   * A blood request is approved at most once in any run: once an approval of
   * it succeeds, every later approval of it is refused, so its units leave the
   * stock once.
   */
  lemma RequestApprovedAtMostOnce(db: Db, calls: seq<Call>, env: Env, k: Id, i: nat, j: nat)
    requires Valid(db) && i < j < |calls|
    requires calls[i].request.route == ApproveRequest(k) && calls[j].request.route == ApproveRequest(k)
    requires Run(db, calls, env)[i].reply.Ok?
    ensures Run(db, calls, env)[j].reply.Err?
  {
    var trace := Run(db, calls, env);
    RunAt(db, calls, env, i);
    RunKeepsValid(db, calls, env);
    var mid := trace[i].next;
    var before := StateBefore(db, calls, env, i);
    assert Valid(before);
    DispatchKeepsClosed(before, calls[i].request, env, calls[i].issued, k);
    assert RequestClosed(mid, k);
    RunSuffix(db, calls, env, i);
    RequestStaysClosed(mid, calls[i + 1..], env, k);
    assert trace[j] == trace[i + 1..][j - i - 1];
    assert calls[i + 1..][j - i - 1] == calls[j];
  }

  /** An appointment is approved at most once in any run, so it adds one unit once. */
  lemma DonationApprovedAtMostOnce(db: Db, calls: seq<Call>, env: Env, k: Id, i: nat, j: nat)
    requires Valid(db) && i < j < |calls|
    requires calls[i].request.route == ApproveDonation(k) && calls[j].request.route == ApproveDonation(k)
    requires Run(db, calls, env)[i].reply.Ok?
    ensures Run(db, calls, env)[j].reply.Err?
  {
    var trace := Run(db, calls, env);
    RunAt(db, calls, env, i);
    RunKeepsValid(db, calls, env);
    var mid := trace[i].next;
    var before := StateBefore(db, calls, env, i);
    assert Valid(before);
    DispatchKeepsClosed(before, calls[i].request, env, calls[i].issued, k);
    assert DonationClosed(mid, k);
    RunSuffix(db, calls, env, i);
    DonationStaysClosed(mid, calls[i + 1..], env, k);
    assert trace[j] == trace[i + 1..][j - i - 1];
    assert calls[i + 1..][j - i - 1] == calls[j];
  }

  /** Over a run with no administrator stock edits, no count ever drops below zero. */
  lemma {:induction false} RunKeepsStock(db: Db, calls: seq<Call>, env: Env)
    requires StockNonNegative(db.inventory)
    requires forall i :: 0 <= i < |calls| ==> !SetsStock(calls[i].request.route)
    ensures forall i :: 0 <= i < |calls| ==> StockNonNegative(Run(db, calls, env)[i].next.inventory)
    decreases |calls|
  {
    if calls != [] {
      var s := Dispatch(db, calls[0].request, env, calls[0].issued);
      StepKeepsStock(db, calls[0].request, env, calls[0].issued);
      assert forall i :: 0 <= i < |calls[1..]| ==> calls[1..][i] == calls[i + 1];
      RunKeepsStock(s.next, calls[1..], env);
      forall i | 0 <= i < |calls|
        ensures StockNonNegative(Run(db, calls, env)[i].next.inventory)
      {
        if i > 0 {
          assert Run(db, calls, env)[i] == Run(s.next, calls[1..], env)[i - 1];
        }
      }
    }
  }

  /** The collections of the database, held as fields the handlers update in place. */
  class Store {
    var inventory: map<string, int>
    var requests: map<Id, BloodRequest>
    var donations: map<Id, Appointment>
    var users: map<Id, User>
    var nextId: nat

    /** The tables as one value. */
    function Snapshot(): Db
      reads this
    {
      Db(inventory, requests, donations, users, nextId)
    }

    constructor()
      ensures Snapshot() == EmptyDb && Valid(Snapshot())
    {
      inventory := map[];
      requests := map[];
      donations := map[];
      users := map[];
      nextId := 0;
    }

    /** `createBloodRequest`. */
    method CreateBloodRequest(caller: Id, body: Body) returns (reply: Result<BloodRequest>)
      modifies this
      ensures Snapshot() == BloodRequests.Create(old(Snapshot()), caller, body).next
      ensures reply == BloodRequests.Create(old(Snapshot()), caller, body).reply
    {
      var bloodGroup := Get(body, "bloodGroup");
      var units := Get(body, "units");
      if !Truthy(bloodGroup) || !Truthy(units) {
        return Err(BloodRequests.MissingFields);
      }
      var n := CastNumber(units.value);
      if n.None? {
        return Err(CastFailed);
      }
      var request := BloodRequest(nextId, caller, CastString(bloodGroup.value), n.value, DefaultStatus, nextId);
      if !BloodRequestValid(request) {
        return Err(ValidationFailed("BloodRequest"));
      }
      requests := requests[request.id := request];
      nextId := nextId + 1;
      reply := Ok(request);
    }

    /** `approveBloodRequest`: the checks, then the stock is drawn and the request approved. */
    method ApproveBloodRequest(requestId: Id) returns (reply: Result<BloodRequests.Approval>)
      modifies this
      ensures Snapshot() == BloodRequests.Approve(old(Snapshot()), requestId).next
      ensures reply == BloodRequests.Approve(old(Snapshot()), requestId).reply
    {
      if requestId !in requests {
        return Err(BloodRequests.NotFound);
      }
      var request := requests[requestId];
      if request.status != Pending {
        return Err(BloodRequests.AlreadyProcessed);
      }
      var g := request.bloodGroup;
      if g !in inventory || inventory[g] < request.units {
        return Err(BloodRequests.InsufficientStock);
      }
      var left := inventory[g] - request.units;
      inventory := inventory[g := left];
      var approved := request.(status := Approved);
      requests := requests[requestId := approved];
      reply := Ok(BloodRequests.Approval(approved, InventoryRecord(g, left)));
    }

    /** `rejectBloodRequest`. */
    method RejectBloodRequest(requestId: Id) returns (reply: Result<BloodRequest>)
      modifies this
      ensures Snapshot() == BloodRequests.Reject(old(Snapshot()), requestId).next
      ensures reply == BloodRequests.Reject(old(Snapshot()), requestId).reply
    {
      if requestId !in requests {
        return Err(BloodRequests.NotFound);
      }
      var rejected := requests[requestId].(status := Rejected);
      requests := requests[requestId := rejected];
      reply := Ok(rejected);
    }

    /** `bookDonation`. */
    method BookDonation(caller: Id, body: Body) returns (reply: Result<Appointment>)
      modifies this
      ensures Snapshot() == Donations.Book(old(Snapshot()), caller, body).next
      ensures reply == Donations.Book(old(Snapshot()), caller, body).reply
    {
      var appointmentDate := Get(body, "appointmentDate");
      var bloodGroup := Get(body, "bloodGroup");
      if !Truthy(appointmentDate) || !Truthy(bloodGroup) {
        return Err(Donations.MissingFields);
      }
      var donation := Appointment(nextId, caller, CastString(bloodGroup.value), appointmentDate.value, DefaultStatus, nextId);
      donations := donations[donation.id := donation];
      nextId := nextId + 1;
      reply := Ok(donation);
    }

    /** `approveDonation`: the appointment is approved, then its group's count is upserted with `$inc: 1`. */
    method ApproveDonation(donationId: Id) returns (reply: Result<Donations.Approval>)
      modifies this
      ensures Snapshot() == Donations.Approve(old(Snapshot()), donationId).next
      ensures reply == Donations.Approve(old(Snapshot()), donationId).reply
    {
      if donationId !in donations {
        return Err(Donations.NotFound);
      }
      var donation := donations[donationId];
      if donation.status != Pending {
        return Err(Donations.AlreadyProcessed);
      }
      var approved := donation.(status := Approved);
      donations := donations[donationId := approved];
      var g := donation.bloodGroup;
      var units := (if g in inventory then inventory[g] else NewInventoryRecord(g).unitsAvailable) + 1;
      inventory := inventory[g := units];
      reply := Ok(Donations.Approval(approved, InventoryRecord(g, units)));
    }

    /** `rejectDonation`. */
    method RejectDonation(donationId: Id) returns (reply: Result<Appointment>)
      modifies this
      ensures Snapshot() == Donations.Reject(old(Snapshot()), donationId).next
      ensures reply == Donations.Reject(old(Snapshot()), donationId).reply
    {
      if donationId !in donations {
        return Err(Donations.NotFound);
      }
      var rejected := donations[donationId].(status := Rejected);
      donations := donations[donationId := rejected];
      reply := Ok(rejected);
    }

    /** `updateInventory`: an upsert of the group's count. */
    method UpdateInventory(body: Body) returns (reply: Result<InventoryRecord>)
      modifies this
      ensures Snapshot() == InventoryLedger.Update(old(Snapshot()), body).next
      ensures reply == InventoryLedger.Update(old(Snapshot()), body).reply
    {
      var bloodGroup := Get(body, "bloodGroup");
      var units := Get(body, "units");
      if !Truthy(bloodGroup) || units.None? {
        return Err(InventoryLedger.MissingFields);
      }
      var n := CastNumber(units.value);
      if n.None? {
        return Err(CastFailed);
      }
      var g := CastString(bloodGroup.value);
      inventory := inventory[g := n.value];
      reply := Ok(InventoryRecord(g, n.value));
    }

    /** The checks of `register` against the current tables: the refusal, or the user it would insert. */
    method CheckRegistration(body: Body, crypto: Crypto) returns (draft: Result<User>)
      ensures draft == Accounts.NewUser(Snapshot(), body, crypto)
    {
      if !Truthy(Get(body, "name")) || !Truthy(Get(body, "email")) || !Truthy(Get(body, "password")) {
        return Err(Accounts.MissingFields);
      }
      var email := Accounts.EmailKey(body["email"]);
      if exists k :: k in users && users[k].email == email {
        return Err(Accounts.EmailTaken);
      }
      var user := User(nextId, Accounts.NameKey(body["name"]), email, CastString(body["password"]), None, UserRole, None);
      if user.name == "" {
        return Err(ValidationFailed("User"));
      }
      draft := Ok(PreSave(user, true, crypto));
    }

    /** `register`: the checks, then the new user is saved with the password hashed. */
    method Register(body: Body, crypto: Crypto) returns (reply: Result<Accounts.Registered>)
      modifies this
      ensures Snapshot() == Accounts.Register(old(Snapshot()), body, crypto).next
      ensures reply == Accounts.Register(old(Snapshot()), body, crypto).reply
    {
      var draft := CheckRegistration(body, crypto);
      if draft.Err? {
        return Err(draft.error);
      }
      var u := draft.value;
      users := users[nextId := u];
      nextId := nextId + 1;
      reply := Ok(Accounts.Registered(u.id, u.name, u.email));
    }

    /** `generateAccessTokenAndRefreshToken`: the new refresh token is saved on the user. */
    method IssueTokens(userId: Id, issued: Accounts.Issued, crypto: Crypto) returns (reply: Result<Accounts.Issued>)
      modifies this
      ensures Snapshot() == Accounts.IssueTokens(old(Snapshot()), userId, issued, crypto).next
      ensures reply == Accounts.IssueTokens(old(Snapshot()), userId, issued, crypto).reply
    {
      if userId !in users {
        return Err(Accounts.TokenIssueFailed);
      }
      users := users[userId := PreSave(users[userId].(refreshToken := Some(issued.refreshToken)), false, crypto)];
      reply := Ok(issued);
    }

    /** `loginUser`. */
    method Login(body: Body, crypto: Crypto, issued: Accounts.Issued) returns (reply: Result<Accounts.LoginReply>)
      modifies this
      ensures Snapshot() == Accounts.Login(old(Snapshot()), body, crypto, issued).next
      ensures reply == Accounts.Login(old(Snapshot()), body, crypto, issued).reply
    {
      if !Truthy(Get(body, "username")) && !Truthy(Get(body, "email")) {
        return Err(Accounts.MissingLogin);
      }
      var found := Accounts.FindOne(Snapshot(), Accounts.LoginFilter(body));
      if found.None? {
        return Err(Accounts.NoSuchUser);
      }
      var k := found.value;
      var check := Accounts.CheckPassword(users[k], Get(body, "password"), crypto);
      if check.Err? {
        return Err(check.error);
      }
      if !check.value {
        return Err(Accounts.WrongPassword);
      }
      var pair := IssueTokens(k, issued, crypto);
      reply := Ok(Accounts.LoginReply(PrincipalOf(users[k]), issued.accessToken, issued.refreshToken));
    }

    /** `logoutUser`: the stored refresh token is unset. */
    method Logout(user: Option<Principal>) returns (reply: Result<()>)
      modifies this
      ensures Snapshot() == Accounts.Logout(old(Snapshot()), user).next
      ensures reply == Accounts.Logout(old(Snapshot()), user).reply
    {
      if user.None? {
        return Err(Accounts.NotSignedIn);
      }
      var id := user.value.id;
      if id in users {
        users := users[id := users[id].(refreshToken := None)];
      }
      reply := Ok(());
    }

    /** `refreshAccessToken`, answering with the refresh token it stored. */
    method RefreshAccessToken(
      cookies: map<string, string>, body: Body, decode: string -> Decoded,
      crypto: Crypto, issued: Accounts.Issued) returns (reply: Result<Accounts.RefreshReply>)
      modifies this
      ensures Snapshot() == Accounts.Refresh(old(Snapshot()), cookies, body, decode, crypto, issued).next
      ensures reply == Accounts.Refresh(old(Snapshot()), cookies, body, decode, crypto, issued).reply
    {
      var incoming := Accounts.IncomingRefreshToken(cookies, body);
      if !Truthy(incoming) {
        return Err(Accounts.NoRefreshToken);
      }
      if incoming.value.JNum? {
        return Err(Accounts.RefreshNotAString);
      }
      var t := incoming.value.s;
      match decode(t) {
        case Invalid(reason) =>
          return Err(ApiError(401, if reason != "" then reason else Accounts.UnknownRefreshUser.message));
        case Verified(k) =>
          if k !in users {
            return Err(Accounts.UnknownRefreshUser);
          }
          if users[k].refreshToken != Some(t) {
            return Err(Accounts.StaleRefreshToken);
          }
          var pair := IssueTokens(k, issued, crypto);
          reply := Ok(Accounts.RefreshReply(pair.value.accessToken, Some(pair.value.refreshToken)));
      }
    }

    /** The account routes against the tables. */
    method HandleAccount(req: Request, user: Option<Principal>, env: Env, issued: Accounts.Issued)
      returns (reply: Result<Payload>)
      requires AccountRoute(req.route)
      modifies this
      ensures Snapshot() == ServeAccount(old(Snapshot()), req, user, env, issued).next
      ensures reply == ServeAccount(old(Snapshot()), req, user, env, issued).reply
    {
      match req.route {
        case RegisterRoute =>
          var r := Register(req.body, env.crypto);
          reply := LiftReply(r, (v: Accounts.Registered) => UserCreated(v));
        case LoginRoute =>
          var r := Login(req.body, env.crypto, issued);
          reply := LiftReply(r, (v: Accounts.LoginReply) => LoggedIn(v));
        case LogoutRoute =>
          var r := Logout(user);
          reply := LiftReply(r, (v: ()) => LoggedOut);
        case RefreshRoute =>
          var r := RefreshAccessToken(req.cookies, req.body, env.decodeRefresh, env.crypto, issued);
          reply := LiftReply(r, (v: Accounts.RefreshReply) => Refreshed(v));
        case AdminLoginRoute =>
          var r := AdminAuth.AdminLogin(Snapshot(), req.body, env.crypto, issued.accessToken);
          reply := LiftReply(r, (v: AdminAuth.AdminSession) => AdminSignedIn(v));
      }
    }

    /** The blood-request routes against the tables. */
    method HandleRequest(req: Request, user: Option<Principal>) returns (reply: Result<Payload>)
      requires RequestRoute(req.route)
      requires !req.route.AllRequests? && !req.route.ApproveRequest? && !req.route.RejectRequest? ==> user.Some?
      modifies this
      ensures Snapshot() == ServeRequest(old(Snapshot()), req, user).next
      ensures reply == ServeRequest(old(Snapshot()), req, user).reply
    {
      match req.route {
        case CreateRequest =>
          var r := CreateBloodRequest(user.value.id, req.body);
          reply := LiftReply(r, (v: BloodRequest) => RequestRecord(v));
        case MyRequests =>
          reply := Ok(RequestList(BloodRequests.ListMine(Snapshot(), user.value.id)));
        case AllRequests =>
          reply := Ok(RequestList(BloodRequests.ListAll(Snapshot())));
        case ApproveRequest(id) =>
          var r := ApproveBloodRequest(id);
          reply := LiftReply(r, (v: BloodRequests.Approval) => RequestApproval(v));
        case RejectRequest(id) =>
          var r := RejectBloodRequest(id);
          reply := LiftReply(r, (v: BloodRequest) => RequestRecord(v));
      }
    }

    /** The donation routes against the tables. */
    method HandleDonation(req: Request, user: Option<Principal>) returns (reply: Result<Payload>)
      requires DonationRoute(req.route)
      requires !req.route.AllDonations? && !req.route.ApproveDonation? && !req.route.RejectDonation? ==> user.Some?
      modifies this
      ensures Snapshot() == ServeDonation(old(Snapshot()), req, user).next
      ensures reply == ServeDonation(old(Snapshot()), req, user).reply
    {
      match req.route {
        case BookDonation =>
          var r := BookDonation(user.value.id, req.body);
          reply := LiftReply(r, (v: Appointment) => DonationRecord(v));
        case MyDonations =>
          reply := Ok(DonationList(Donations.ListMine(Snapshot(), user.value.id)));
        case AllDonations =>
          reply := Ok(DonationList(Donations.ListAll(Snapshot())));
        case ApproveDonation(id) =>
          var r := ApproveDonation(id);
          reply := LiftReply(r, (v: Donations.Approval) => DonationApproval(v));
        case RejectDonation(id) =>
          var r := RejectDonation(id);
          reply := LiftReply(r, (v: Appointment) => DonationRecord(v));
      }
    }

    /** The inventory routes against the tables. */
    method HandleInventory(req: Request) returns (reply: Result<Payload>)
      requires req.route.GetInventory? || SetsStock(req.route)
      modifies this
      ensures Snapshot() == ServeInventory(old(Snapshot()), req).next
      ensures reply == ServeInventory(old(Snapshot()), req).reply
    {
      if req.route.GetInventory? {
        reply := Ok(Stock(InventoryLedger.List(inventory)));
      } else {
        var r := UpdateInventory(req.body);
        reply := LiftReply(r, (v: InventoryRecord) => StockRecord(v));
      }
    }

    /**
     * One request: the guard, then the route's handler, which updates the
     * tables in place. A valid database stays valid.
     */
    method Handle(req: Request, env: Env, issued: Accounts.Issued) returns (reply: Result<Payload>)
      modifies this
      ensures Snapshot() == Dispatch(old(Snapshot()), req, env, issued).next
      ensures reply == Dispatch(old(Snapshot()), req, env, issued).reply
      ensures old(Valid(Snapshot())) ==> Valid(Snapshot())
    {
      var auth := Authorize(users, GuardOf(req.route), req.authorization, req.cookies, env.decodeAccess);
      if auth.Err? {
        return Err(auth.error);
      }
      var user := auth.value;
      if AccountRoute(req.route) {
        reply := HandleAccount(req, user, env, issued);
      } else if RequestRoute(req.route) {
        reply := HandleRequest(req, user);
      } else if DonationRoute(req.route) {
        reply := HandleDonation(req, user);
      } else {
        reply := HandleInventory(req);
      }
    }
  }
}
