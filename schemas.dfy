/**
 * The Mongoose schemas of the four collections (inventory, blood requests,
 * donation appointments, users) as record types with their field constraints,
 * and the in-memory database that holds one table per collection.
 */
module Schemas {
  import opened Wrappers
  import opened Http
  import Text

  /** A document id. Ids come from one insertion counter, which also serves as `createdAt`. */
  type Id = nat

  /** The `status` enum shared by blood requests and appointments. */
  datatype Status = Pending | Approved | Rejected

  /** The `role` enum of a user. */
  datatype Role = AdminRole | UserRole

  /** The eight ABO/Rh groups the user schema's `bloodGroup` enum admits. */
  const BloodGroups: seq<string> := ["A+", "A-", "B+", "B-", "AB+", "AB-", "O+", "O-"]

  /** Default of `status` on requests and appointments. */
  const DefaultStatus: Status := Pending

  /** Default of `role` on users. */
  const DefaultRole: Role := UserRole

  /** Default of `unitsAvailable` on inventory records. */
  const DefaultUnitsAvailable: int := 0

  /** An inventory record: one per blood group (the table is keyed by `bloodGroup`). */
  datatype InventoryRecord = InventoryRecord(bloodGroup: string, unitsAvailable: int)

  /** A blood request; `units` is the number of units asked for. */
  datatype BloodRequest = BloodRequest(
    id: Id, requester: Id, bloodGroup: string, units: int, status: Status, createdAt: nat)

  /** A donation appointment; it has no units field. `appointmentDate` is kept as sent. */
  datatype Appointment = Appointment(
    id: Id, donorId: Id, bloodGroup: string, appointmentDate: Json, status: Status, createdAt: nat)

  /** A user account; `password` holds the bcrypt hash once saved. */
  datatype User = User(
    id: Id, name: string, email: string, password: string,
    refreshToken: Option<string>, role: Role, bloodGroup: Option<string>)

  /**
   * The record an upsert inserts for a group that has none, before its update
   * operators apply: `unitsAvailable` takes its default.
   */
  function NewInventoryRecord(bloodGroup: string): (r: InventoryRecord)
    ensures r.bloodGroup == bloodGroup && r.unitsAvailable == 0
  {
    InventoryRecord(bloodGroup, DefaultUnitsAvailable)
  }

  /**
   * Schema constraints of a blood request: `bloodGroup` is a required string and
   * `units` is required with minimum 1 (`requester` and `status` hold by typing).
   */
  predicate BloodRequestValid(r: BloodRequest) {
    r.bloodGroup != "" && r.units >= 1
  }

  /** Schema constraints of an appointment: `bloodGroup` is a required string. */
  predicate AppointmentValid(a: Appointment) {
    a.bloodGroup != ""
  }

  /**
   * Schema constraints of a stored user: `name` is required and trimmed, `email`
   * is required and lower-cased, and `bloodGroup`, when present, is one of the
   * eight groups.
   */
  predicate UserValid(u: User) {
    && u.name != "" && Text.Trim(u.name) == u.name
    && u.email != "" && Text.Lower(u.email) == u.email
    && (u.bloodGroup.Some? ==> u.bloodGroup.value in BloodGroups)
  }

  /** The four tables, with the insertion counter that allocates ids. */
  datatype Db = Db(
    inventory: map<string, int>,
    requests: map<Id, BloodRequest>,
    donations: map<Id, Appointment>,
    users: map<Id, User>,
    nextId: nat)

  /** The empty database. */
  const EmptyDb: Db := Db(map[], map[], map[], map[], 0)

  /** The unique index on `email`. */
  ghost predicate EmailsUnique(users: map<Id, User>) {
    forall a, b :: a in users && b in users && users[a].email == users[b].email ==> a == b
  }

  /**
   * Every stored document satisfies its schema, is filed under its own id, and
   * was allocated by the counter (so `createdAt` orders documents by insertion).
   */
  ghost predicate Valid(db: Db) {
    && InventoryValid(db.inventory)
    && RequestsValid(db.requests, db.nextId)
    && DonationsValid(db.donations, db.nextId)
    && UsersValid(db.users, db.nextId)
    && EmailsUnique(db.users)
  }

  ghost predicate InventoryValid(inventory: map<string, int>) {
    forall g :: g in inventory ==> g != ""
  }

  ghost predicate RequestsValid(requests: map<Id, BloodRequest>, nextId: nat) {
    forall k :: k in requests ==>
      && k < nextId && requests[k].id == k && requests[k].createdAt == k
      && BloodRequestValid(requests[k])
  }

  ghost predicate DonationsValid(donations: map<Id, Appointment>, nextId: nat) {
    forall k :: k in donations ==>
      && k < nextId && donations[k].id == k && donations[k].createdAt == k
      && AppointmentValid(donations[k])
  }

  ghost predicate UsersValid(users: map<Id, User>, nextId: nat) {
    forall k :: k in users ==> k < nextId && users[k].id == k && UserValid(users[k])
  }

  /** Replacing a stored user by a valid record with the same id and e-mail keeps the database valid. */
  lemma ReplaceUserKeepsValid(db: Db, k: Id, u: User)
    requires Valid(db) && k in db.users
    requires u.id == k && u.email == db.users[k].email && UserValid(u)
    ensures Valid(db.(users := db.users[k := u]))
  {
    assert UsersValid(db.users[k := u], db.nextId);
    SameEmailStaysUnique(db.users, k, u);
  }

  /** Storing a new valid user under a fresh id with an e-mail nobody has keeps the database valid. */
  lemma AddUserKeepsValid(db: Db, u: User)
    requires Valid(db) && u.id == db.nextId && UserValid(u)
    requires forall k :: k in db.users ==> db.users[k].email != u.email
    ensures Valid(db.(users := db.users[db.nextId := u], nextId := db.nextId + 1))
  {
    var users := db.users[db.nextId := u];
    assert RequestsValid(db.requests, db.nextId + 1);
    assert DonationsValid(db.donations, db.nextId + 1);
    assert UsersValid(users, db.nextId + 1);
    forall a, b | a in users && b in users && users[a].email == users[b].email
      ensures a == b
    {
      if a != db.nextId && b != db.nextId {
        assert users[a] == db.users[a] && users[b] == db.users[b];
      }
    }
  }

  lemma SameEmailStaysUnique(users: map<Id, User>, k: Id, u: User)
    requires EmailsUnique(users) && k in users && u.email == users[k].email
    ensures EmailsUnique(users[k := u])
  {
    var after := users[k := u];
    forall a, b | a in after && b in after && after[a].email == after[b].email
      ensures a == b
    {
      assert after[a].email == users[a].email && after[b].email == users[b].email;
    }
  }

  /** The state after a handler ran, and what it answered. */
  datatype Step<+T> = Step(next: Db, reply: Result<T>)

  /** bcrypt, left uninterpreted: `hash(password)` and `compare(candidate, hash)`. */
  datatype Crypto = Crypto(hash: string -> string, compare: (string, string) -> bool)

  /**
   * The `pre("save")` hook: the password is re-hashed only when it was modified
   * since the last save.
   */
  function PreSave(u: User, passwordModified: bool, crypto: Crypto): User {
    if !passwordModified then u else u.(password := crypto.hash(u.password))
  }

  /** `isPasswordCorrect`: bcrypt's comparison of a candidate with the stored hash. */
  predicate IsPasswordCorrect(u: User, candidate: string, crypto: Crypto) {
    crypto.compare(candidate, u.password)
  }

  /** Saving a user whose password was not modified (a new refresh token, say) keeps the hash. */
  lemma SaveWithoutPasswordChangeKeepsHash(u: User, token: Option<string>, crypto: Crypto)
    ensures PreSave(u.(refreshToken := token), false, crypto).password == u.password
    ensures PreSave(u.(refreshToken := token), false, crypto).refreshToken == token
  {
  }

  /** Saving a user whose password was set hashes exactly that password and nothing else. */
  lemma SaveWithPasswordChangeHashes(u: User, crypto: Crypto)
    ensures PreSave(u, true, crypto).password == crypto.hash(u.password)
    ensures PreSave(u, true, crypto).(password := u.password) == u
  {
  }
}
