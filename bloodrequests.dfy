/**
 * The blood-request workflow: a signed-in user creates a request for some units
 * of a blood group; an administrator approves it, which draws the units from
 * the inventory when there is enough stock, or rejects it.
 */
module BloodRequests {
  import opened Wrappers
  import opened Http
  import opened Schemas
  import Listing

  const MissingFields := ApiError(400, "Blood group and units are required")
  const NotFound := ApiError(404, "Blood request not found")
  const AlreadyProcessed := ApiError(400, "Request already processed")
  const InsufficientStock := ApiError(400, "Insufficient stock")

  /** What an approval answers: the updated request and the updated inventory record. */
  datatype Approval = Approval(request: BloodRequest, inventory: InventoryRecord)

  /** Requests ordered newest first. */
  predicate NewestFirst(rs: seq<BloodRequest>) {
    forall i, j :: 0 <= i < j < |rs| ==> rs[i].createdAt > rs[j].createdAt
  }

  /**
   * `createBloodRequest` for the authenticated user `caller`: the body's
   * `bloodGroup` and `units` must both be truthy; the record is then validated
   * against the schema and inserted as pending.
   */
  function Create(db: Db, caller: Id, body: Body): (out: Step<BloodRequest>)
    ensures !Truthy(Get(body, "bloodGroup")) || !Truthy(Get(body, "units")) ==>
              out == Step(db, Err(MissingFields))
    ensures out.reply.Ok? <==>
              && Truthy(Get(body, "bloodGroup")) && Truthy(Get(body, "units"))
              && CastNumber(body["units"]).Some? && CastNumber(body["units"]).value >= 1
    ensures out.reply.Err? ==> out.next == db
    ensures out.reply.Ok? ==>
              var r := out.reply.value;
              && r.status == Pending && r.requester == caller
              && r.id == db.nextId && r.createdAt == db.nextId
              && r.bloodGroup == CastString(body["bloodGroup"])
              && Some(r.units) == CastNumber(body["units"])
              && out.next == db.(requests := db.requests[r.id := r], nextId := db.nextId + 1)
    ensures Valid(db) ==> Valid(out.next)
  {
    var bloodGroup := Get(body, "bloodGroup");
    var units := Get(body, "units");
    if !Truthy(bloodGroup) || !Truthy(units) then Step(db, Err(MissingFields))
    else
      match CastNumber(units.value)
      case None => Step(db, Err(CastFailed))
      case Some(n) =>
        var request := BloodRequest(db.nextId, caller, CastString(bloodGroup.value), n, DefaultStatus, db.nextId);
        if !BloodRequestValid(request) then Step(db, Err(ValidationFailed("BloodRequest")))
        else Step(db.(requests := db.requests[request.id := request], nextId := db.nextId + 1), Ok(request))
  }

  /** `getMyBloodRequests`: the caller's requests, newest first. */
  function ListMine(db: Db, caller: Id): (rs: seq<BloodRequest>)
    ensures forall r :: r in rs ==> r in db.requests.Values && r.requester == caller
    ensures Valid(db) ==> forall k :: k in db.requests && db.requests[k].requester == caller ==> db.requests[k] in rs
    ensures Valid(db) ==> NewestFirst(rs)
  {
    var ks := Listing.NewestFirst(db.requests, (r: BloodRequest) => r.requester == caller, db.nextId);
    assert forall i :: 0 <= i < |ks| ==> ks[i] in ks;
    var rs := Listing.Pick(db.requests, ks);
    assert forall k :: k in ks ==> exists i :: 0 <= i < |ks| && ks[i] == k;
    rs
  }

  /** `getAllBloodRequests`: every request, whoever made it, newest first. */
  function ListAll(db: Db): (rs: seq<BloodRequest>)
    ensures forall r :: r in rs ==> r in db.requests.Values
    ensures Valid(db) ==> forall k :: k in db.requests ==> db.requests[k] in rs
    ensures Valid(db) ==> NewestFirst(rs)
  {
    var ks := Listing.NewestFirst(db.requests, (r: BloodRequest) => true, db.nextId);
    assert forall i :: 0 <= i < |ks| ==> ks[i] in ks;
    var rs := Listing.Pick(db.requests, ks);
    assert forall k :: k in ks ==> exists i :: 0 <= i < |ks| && ks[i] == k;
    rs
  }

  /**
   * `approveBloodRequest`: 404 for an unknown id, 400 when the request is no
   * longer pending, 400 when its group has no inventory record or too few units;
   * otherwise the units are taken from stock and the request is approved.
   */
  function Approve(db: Db, requestId: Id): (out: Step<Approval>)
    ensures requestId !in db.requests ==> out == Step(db, Err(NotFound))
    ensures requestId in db.requests && db.requests[requestId].status != Pending ==>
              out == Step(db, Err(AlreadyProcessed))
    ensures requestId in db.requests && db.requests[requestId].status == Pending ==>
              var r := db.requests[requestId];
              r.bloodGroup !in db.inventory || db.inventory[r.bloodGroup] < r.units ==>
                out == Step(db, Err(InsufficientStock))
    ensures out.reply.Err? ==> out.next == db
    ensures out.reply.Ok? <==>
              && requestId in db.requests
              && db.requests[requestId].status == Pending
              && db.requests[requestId].bloodGroup in db.inventory
              && db.inventory[db.requests[requestId].bloodGroup] >= db.requests[requestId].units
    ensures out.reply.Ok? ==>
              && requestId in db.requests
              && var r := db.requests[requestId];
              && var g := r.bloodGroup;
              && r.status == Pending
              && g in db.inventory && db.inventory[g] >= r.units
              && out.next.inventory.Keys == db.inventory.Keys
              && out.next.inventory[g] == db.inventory[g] - r.units
              && out.next.inventory[g] >= 0
              && (forall h :: h in db.inventory && h != g ==> out.next.inventory[h] == db.inventory[h])
              && out.next.requests == db.requests[requestId := r.(status := Approved)]
              && out.next.donations == db.donations && out.next.users == db.users
              && out.next.nextId == db.nextId
              && out.reply.value == Approval(r.(status := Approved), InventoryRecord(g, out.next.inventory[g]))
    ensures Valid(db) ==> Valid(out.next)
  {
    if requestId !in db.requests then Step(db, Err(NotFound))
    else
      var request := db.requests[requestId];
      if request.status != Pending then Step(db, Err(AlreadyProcessed))
      else if request.bloodGroup !in db.inventory || db.inventory[request.bloodGroup] < request.units then
        Step(db, Err(InsufficientStock))
      else
        var left := db.inventory[request.bloodGroup] - request.units;
        var approved := request.(status := Approved);
        Step(
          db.(inventory := db.inventory[request.bloodGroup := left],
              requests := db.requests[requestId := approved]),
          Ok(Approval(approved, InventoryRecord(request.bloodGroup, left))))
  }

  /**
   * `rejectBloodRequest`: 404 for an unknown id; otherwise the status becomes
   * rejected whatever it was, and the inventory is not touched.
   */
  function Reject(db: Db, requestId: Id): (out: Step<BloodRequest>)
    ensures requestId !in db.requests ==> out == Step(db, Err(NotFound))
    ensures requestId in db.requests ==>
              && out.reply == Ok(db.requests[requestId].(status := Rejected))
              && out.next == db.(requests := db.requests[requestId := out.reply.value])
    ensures out.next.inventory == db.inventory
    ensures Valid(db) ==> Valid(out.next)
  {
    if requestId !in db.requests then Step(db, Err(NotFound))
    else
      var rejected := db.requests[requestId].(status := Rejected);
      Step(db.(requests := db.requests[requestId := rejected]), Ok(rejected))
  }

  /** A second approval of the same request fails as already processed and changes nothing. */
  lemma ApproveTwiceFails(db: Db, requestId: Id)
    requires Approve(db, requestId).reply.Ok?
    ensures var db1 := Approve(db, requestId).next;
            Approve(db1, requestId) == Step(db1, Err(AlreadyProcessed))
  {
  }

  /**
   * Approving a request for exactly the stock on hand drains the group to zero,
   * and any other pending request for that group is then refused for lack of
   * stock.
   */
  lemma DrainToZeroThenInsufficient(db: Db, first: Id, second: Id)
    requires Valid(db)
    requires first in db.requests && second in db.requests && first != second
    requires db.requests[first].status == Pending && db.requests[second].status == Pending
    requires db.requests[second].bloodGroup == db.requests[first].bloodGroup
    requires db.requests[first].bloodGroup in db.inventory
    requires db.inventory[db.requests[first].bloodGroup] == db.requests[first].units
    ensures Approve(db, first).reply.Ok?
    ensures Approve(db, first).next.inventory[db.requests[first].bloodGroup] == 0
    ensures var db1 := Approve(db, first).next;
            Approve(db1, second) == Step(db1, Err(InsufficientStock))
  {
    var db1 := Approve(db, first).next;
    assert db1.requests[second] == db.requests[second];
    assert BloodRequestValid(db.requests[second]);
  }

  /** Rejecting an approved request does not give its units back. */
  lemma RejectAfterApproveKeepsStock(db: Db, requestId: Id)
    requires Approve(db, requestId).reply.Ok?
    ensures var db1 := Approve(db, requestId).next;
            && Reject(db1, requestId).next.inventory == db1.inventory
            && Reject(db1, requestId).next.requests[requestId].status == Rejected
  {
  }
}
