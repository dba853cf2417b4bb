/**
 * The inventory ledger as the administrator sees it: a listing ordered by blood
 * group and a manual upsert that sets a group's units to a given value.
 */
module InventoryLedger {
  import opened Wrappers
  import opened Http
  import opened Schemas
  import Listing
  import Text

  const MissingFields := ApiError(400, "Blood group and units required")

  /** Records in ascending blood-group order, each group once. */
  predicate Ascending(rs: seq<InventoryRecord>) {
    forall i, j :: 0 <= i < j < |rs| ==> Listing.StrLess(rs[i].bloodGroup, rs[j].bloodGroup)
  }

  /** `getInventory`: every record, ordered by `bloodGroup` ascending. */
  function List(inventory: map<string, int>): (rs: seq<InventoryRecord>)
    ensures Ascending(rs)
    ensures |rs| == |inventory|
    ensures forall r :: r in rs <==> r.bloodGroup in inventory && inventory[r.bloodGroup] == r.unitsAvailable
  {
    var ks := Listing.SortedKeys(inventory.Keys);
    var rs := seq(|ks|, i requires 0 <= i < |ks| => InventoryRecord(ks[i], inventory[ks[i]]));
    RecordsOfSortedKeys(inventory, ks, rs);
    rs
  }

  /** The records read off the sorted keys list every group once, in order. */
  lemma RecordsOfSortedKeys(inventory: map<string, int>, ks: seq<string>, rs: seq<InventoryRecord>)
    requires forall i, j :: 0 <= i < j < |ks| ==> Listing.StrLess(ks[i], ks[j])
    requires forall k :: k in ks <==> k in inventory
    requires |rs| == |ks|
    requires forall i :: 0 <= i < |ks| ==> rs[i] == InventoryRecord(ks[i], inventory[ks[i]])
    ensures Ascending(rs)
    ensures forall r :: r in rs <==> r.bloodGroup in inventory && inventory[r.bloodGroup] == r.unitsAvailable
  {
    forall r: InventoryRecord | r.bloodGroup in inventory && inventory[r.bloodGroup] == r.unitsAvailable
      ensures r in rs
    {
      var i :| 0 <= i < |ks| && ks[i] == r.bloodGroup;
      assert rs[i] == r;
    }
  }

  /**
   * `updateInventory`: 400 unless the body's `bloodGroup` is truthy and its
   * `units` is present (0 is accepted); the group's record is then created or
   * overwritten with exactly that value. No bound is checked.
   */
  function Update(db: Db, body: Body): (out: Step<InventoryRecord>)
    ensures !Truthy(Get(body, "bloodGroup")) || "units" !in body ==> out == Step(db, Err(MissingFields))
    ensures out.reply.Ok? <==>
              Truthy(Get(body, "bloodGroup")) && "units" in body && CastNumber(body["units"]).Some?
    ensures out.reply.Err? ==> out.next == db
    ensures out.reply.Ok? ==>
              var g := CastString(body["bloodGroup"]);
              var n := CastNumber(body["units"]).value;
              && out.reply.value == InventoryRecord(g, n)
              && out.next.inventory.Keys == db.inventory.Keys + {g}
              && out.next.inventory[g] == n
              && (forall h :: h in db.inventory && h != g ==> out.next.inventory[h] == db.inventory[h])
              && out.next.requests == db.requests && out.next.donations == db.donations
              && out.next.users == db.users && out.next.nextId == db.nextId
    ensures Valid(db) ==> Valid(out.next)
  {
    var bloodGroup := Get(body, "bloodGroup");
    var units := Get(body, "units");
    if !Truthy(bloodGroup) || units.None? then Step(db, Err(MissingFields))
    else
      match CastNumber(units.value)
      case None => Step(db, Err(CastFailed))
      case Some(n) =>
        var g := CastString(bloodGroup.value);
        Step(db.(inventory := db.inventory[g := n]), Ok(InventoryRecord(g, n)))
  }

  /** Applying the same update twice answers and stores the same as applying it once. */
  lemma UpdateIdempotent(db: Db, body: Body)
    ensures var once := Update(db, body);
            Update(once.next, body) == once
  {
    var once := Update(db, body);
    if once.reply.Ok? {
      var g := CastString(body["bloodGroup"]);
      var n := CastNumber(body["units"]).value;
      assert once.next.inventory[g := n] == once.next.inventory;
    }
  }

  /** A whitespace-only `units` passes the presence check and is cast to 0, so the group is emptied. */
  lemma BlankUnitsStoreZero(db: Db, g: string)
    requires g != ""
    ensures var out := Update(db, map["bloodGroup" := JStr(g), "units" := JStr(" ")]);
            out.reply == Ok(InventoryRecord(g, 0)) && out.next.inventory[g] == 0
  {
    var body := map["bloodGroup" := JStr(g), "units" := JStr(" ")];
    assert Text.TrimStart(" ") == "" by { assert Text.IsSpace(" "[0]); assert " "[1..] == ""; }
    assert CastNumber(body["units"]) == Some(0);
    assert Get(body, "bloodGroup") == Some(JStr(g));
  }

  /** A non-empty string `units` is cast by `Number`: the group is stored with the number it reads as. */
  lemma TextUnitsStored(db: Db, g: string, units: string, n: int)
    requires g != "" && units != "" && Text.StringToNumber(units) == Some(n)
    ensures var out := Update(db, map["bloodGroup" := JStr(g), "units" := JStr(units)]);
            out.reply == Ok(InventoryRecord(g, n)) && out.next.inventory[g] == n
  {
    var body := map["bloodGroup" := JStr(g), "units" := JStr(units)];
    assert CastNumber(body["units"]) == Some(n);
    assert Get(body, "bloodGroup") == Some(JStr(g));
  }

  /** `units: "0x10"` is read as a hexadecimal literal, so the group is stored with 16 units. */
  lemma HexUnitsStored(db: Db, g: string)
    requires g != ""
    ensures var out := Update(db, map["bloodGroup" := JStr(g), "units" := JStr("0x10")]);
            out.reply == Ok(InventoryRecord(g, 16)) && out.next.inventory[g] == 16
  {
    Text.HexPrefixRead();
    TextUnitsStored(db, g, "0x10", 16);
  }

  /** A negative or zero value is stored as given. */
  lemma UpdateStoresAnyValue(db: Db, g: string, n: int)
    requires g != ""
    ensures var out := Update(db, map["bloodGroup" := JStr(g), "units" := JNum(n)]);
            out.reply == Ok(InventoryRecord(g, n)) && out.next.inventory[g] == n
  {
  }
}
