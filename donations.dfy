/**
 * The donation workflow: a signed-in user books a donation appointment for a
 * blood group; an administrator approves it, which adds one unit to that
 * group's inventory (creating the record when there is none), or rejects it.
 */
module Donations {
  import opened Wrappers
  import opened Http
  import opened Schemas
  import Listing

  const MissingFields := ApiError(400, "Appointment date and blood group are required")
  const NotFound := ApiError(404, "Donation not found")
  const AlreadyProcessed := ApiError(400, "Donation already processed")

  /** What an approval answers: the updated appointment and the updated inventory record. */
  datatype Approval = Approval(donation: Appointment, inventory: InventoryRecord)

  /** Appointments ordered newest first. */
  predicate NewestFirst(ds: seq<Appointment>) {
    forall i, j :: 0 <= i < j < |ds| ==> ds[i].createdAt > ds[j].createdAt
  }

  /**
   * The units a group holds after one more approved donation: an upsert of
   * `$inc: 1`, which starts a missing record from the default.
   */
  function PlusOne(inventory: map<string, int>, bloodGroup: string): (units: int)
    ensures bloodGroup in inventory ==> units == inventory[bloodGroup] + 1
    ensures bloodGroup !in inventory ==> units == 1
  {
    (if bloodGroup in inventory then inventory[bloodGroup]
     else NewInventoryRecord(bloodGroup).unitsAvailable) + 1
  }

  /**
   * `bookDonation` for the authenticated user `caller`: `appointmentDate` and
   * `bloodGroup` must both be truthy; the appointment is inserted as pending and
   * owned by the caller.
   */
  function Book(db: Db, caller: Id, body: Body): (out: Step<Appointment>)
    ensures out.reply.Err? <==> !Truthy(Get(body, "appointmentDate")) || !Truthy(Get(body, "bloodGroup"))
    ensures out.reply.Err? ==> out == Step(db, Err(MissingFields))
    ensures out.reply.Ok? ==>
              var d := out.reply.value;
              && d.status == Pending && d.donorId == caller
              && d.id == db.nextId && d.createdAt == db.nextId
              && d.bloodGroup == CastString(body["bloodGroup"])
              && d.appointmentDate == body["appointmentDate"]
              && out.next == db.(donations := db.donations[d.id := d], nextId := db.nextId + 1)
    ensures Valid(db) ==> Valid(out.next)
  {
    var appointmentDate := Get(body, "appointmentDate");
    var bloodGroup := Get(body, "bloodGroup");
    if !Truthy(appointmentDate) || !Truthy(bloodGroup) then Step(db, Err(MissingFields))
    else
      var donation := Appointment(
        db.nextId, caller, CastString(bloodGroup.value), appointmentDate.value, DefaultStatus, db.nextId);
      Step(db.(donations := db.donations[donation.id := donation], nextId := db.nextId + 1), Ok(donation))
  }

  /** `getMyDonations`: the caller's appointments, newest first. */
  function ListMine(db: Db, caller: Id): (ds: seq<Appointment>)
    ensures forall d :: d in ds ==> d in db.donations.Values && d.donorId == caller
    ensures Valid(db) ==> forall k :: k in db.donations && db.donations[k].donorId == caller ==> db.donations[k] in ds
    ensures Valid(db) ==> NewestFirst(ds)
  {
    var ks := Listing.NewestFirst(db.donations, (d: Appointment) => d.donorId == caller, db.nextId);
    assert forall i :: 0 <= i < |ks| ==> ks[i] in ks;
    var ds := Listing.Pick(db.donations, ks);
    assert forall k :: k in ks ==> exists i :: 0 <= i < |ks| && ks[i] == k;
    ds
  }

  /** `getAllDonations`: every appointment, with no owner filter, newest first. */
  function ListAll(db: Db): (ds: seq<Appointment>)
    ensures forall d :: d in ds ==> d in db.donations.Values
    ensures Valid(db) ==> forall k :: k in db.donations ==> db.donations[k] in ds
    ensures Valid(db) ==> NewestFirst(ds)
  {
    var ks := Listing.NewestFirst(db.donations, (d: Appointment) => true, db.nextId);
    assert forall i :: 0 <= i < |ks| ==> ks[i] in ks;
    var ds := Listing.Pick(db.donations, ks);
    assert forall k :: k in ks ==> exists i :: 0 <= i < |ks| && ks[i] == k;
    ds
  }

  /**
   * `approveDonation`: 404 for an unknown id, 400 when the appointment is no
   * longer pending; otherwise it is approved and its group gains exactly one unit.
   */
  function Approve(db: Db, donationId: Id): (out: Step<Approval>)
    ensures donationId !in db.donations ==> out == Step(db, Err(NotFound))
    ensures donationId in db.donations && db.donations[donationId].status != Pending ==>
              out == Step(db, Err(AlreadyProcessed))
    ensures out.reply.Err? ==> out.next == db
    ensures out.reply.Ok? <==> donationId in db.donations && db.donations[donationId].status == Pending
    ensures out.reply.Ok? ==>
              var d := db.donations[donationId];
              var g := d.bloodGroup;
              && out.next.inventory.Keys == db.inventory.Keys + {g}
              && (g in db.inventory ==> out.next.inventory[g] == db.inventory[g] + 1)
              && (g !in db.inventory ==> out.next.inventory[g] == 1)
              && (forall h :: h in db.inventory && h != g ==> out.next.inventory[h] == db.inventory[h])
              && out.next.donations == db.donations[donationId := d.(status := Approved)]
              && out.next.requests == db.requests && out.next.users == db.users
              && out.next.nextId == db.nextId
              && out.reply.value == Approval(d.(status := Approved), InventoryRecord(g, out.next.inventory[g]))
    ensures Valid(db) ==> Valid(out.next)
  {
    if donationId !in db.donations then Step(db, Err(NotFound))
    else
      var donation := db.donations[donationId];
      if donation.status != Pending then Step(db, Err(AlreadyProcessed))
      else
        var approved := donation.(status := Approved);
        var units := PlusOne(db.inventory, donation.bloodGroup);
        Step(
          db.(donations := db.donations[donationId := approved],
              inventory := db.inventory[donation.bloodGroup := units]),
          Ok(Approval(approved, InventoryRecord(donation.bloodGroup, units))))
  }

  /**
   * `rejectDonation`: 404 for an unknown id; otherwise the status becomes
   * rejected whatever it was, and the inventory is not touched.
   */
  function Reject(db: Db, donationId: Id): (out: Step<Appointment>)
    ensures donationId !in db.donations ==> out == Step(db, Err(NotFound))
    ensures donationId in db.donations ==>
              && out.reply == Ok(db.donations[donationId].(status := Rejected))
              && out.next == db.(donations := db.donations[donationId := out.reply.value])
    ensures out.next.inventory == db.inventory
    ensures Valid(db) ==> Valid(out.next)
  {
    if donationId !in db.donations then Step(db, Err(NotFound))
    else
      var rejected := db.donations[donationId].(status := Rejected);
      Step(db.(donations := db.donations[donationId := rejected]), Ok(rejected))
  }

  /** A second approval of the same appointment fails as already processed and changes nothing. */
  lemma ApproveTwiceFails(db: Db, donationId: Id)
    requires Approve(db, donationId).reply.Ok?
    ensures var db1 := Approve(db, donationId).next;
            Approve(db1, donationId) == Step(db1, Err(AlreadyProcessed))
  {
  }

  /** Rejecting an approved appointment keeps the unit its approval added. */
  lemma RejectAfterApproveKeepsUnit(db: Db, donationId: Id)
    requires Approve(db, donationId).reply.Ok?
    ensures var db1 := Approve(db, donationId).next;
            var g := db.donations[donationId].bloodGroup;
            && Reject(db1, donationId).next.inventory[g] == PlusOne(db.inventory, g)
            && Reject(db1, donationId).next.donations[donationId].status == Rejected
  {
  }

  /** Rejecting twice succeeds both times and leaves the appointment rejected. */
  lemma RejectTwiceSucceeds(db: Db, donationId: Id)
    requires donationId in db.donations
    ensures var db1 := Reject(db, donationId).next;
            && Reject(db1, donationId).reply.Ok?
            && Reject(db1, donationId).next == db1
  {
  }
}
