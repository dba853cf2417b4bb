/**
 * The admin inventory page: the stock-level badge of a blood group, and the
 * body the page's editor sends when an administrator saves a new count.
 */
module StockLevel {
  import opened Wrappers
  import opened Http
  import opened Schemas
  import InventoryLedger

  datatype Level = Critical | Medium | High

  /** The order of the levels, lowest first. */
  function Rank(l: Level): nat {
    match l
    case Critical => 0
    case Medium => 1
    case High => 2
  }

  /** The badge text of a level. */
  function Label(l: Level): string {
    match l
    case Critical => "Critical"
    case Medium => "Medium"
    case High => "High"
  }

  /** `getStockStatus`: ten units or more are high, five to nine medium, anything less (negatives too) critical. */
  function StockStatus(units: int): (l: Level)
    ensures l == High <==> units >= 10
    ensures l == Medium <==> 5 <= units < 10
    ensures l == Critical <==> units < 5
  {
    if units >= 10 then High
    else if units >= 5 then Medium
    else Critical
  }

  /** More units never give a lower level. */
  lemma StockStatusMonotone(a: int, b: int)
    requires a <= b
    ensures Rank(StockStatus(a)) <= Rank(StockStatus(b))
  {
  }

  /** The body `handleSave` sends as written: the parsed count under `unitsAvailable`, and no group. */
  function EditorBodyAsWritten(units: int): Body {
    map["unitsAvailable" := JNum(units)]
  }

  /** The body the handler reads: the row's blood group and the count under `units`. */
  function EditorBody(group: string, units: int): (b: Body)
    ensures b.Keys == {"bloodGroup", "units"}
    ensures b["bloodGroup"] == JStr(group) && b["units"] == JNum(units)
  {
    map["bloodGroup" := JStr(group), "units" := JNum(units)]
  }

  /** As written, every save from the editor is refused with 400 and changes nothing. */
  lemma AsWrittenSaveRefused(db: Db, units: int)
    ensures InventoryLedger.Update(db, EditorBodyAsWritten(units)) == Step(db, Err(InventoryLedger.MissingFields))
  {
    assert "bloodGroup" !in EditorBodyAsWritten(units);
  }

  /** With the group and `units` in the body, a save stores exactly the edited count for that group. */
  lemma CorrectedSaveStores(db: Db, group: string, units: int)
    requires group != ""
    ensures var out := InventoryLedger.Update(db, EditorBody(group, units));
            && out.reply.Ok?
            && out.next.inventory[group] == units
            && (forall h :: h in db.inventory && h != group ==> out.next.inventory[h] == db.inventory[h])
  {
    var b := EditorBody(group, units);
    assert Get(b, "bloodGroup") == Some(JStr(group));
  }
}
