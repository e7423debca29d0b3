/** The admin dashboard of src/pages/admin/DashboardPage.tsx: the status toggle,
    the inventory statistics and the delete-confirmation state. */
module Dashboard {
  import opened Wrappers
  import opened Seqs
  import opened JsValues
  import opened CarModel
  import opened UseCars

  // ---------------------------------------------------------------------------
  // toggleStatus

  /** The status `toggleStatus` writes for a car whose status column reads `current`. */
  function NewStatus(current: string): (s: Status)
    ensures s == Sold <==> current == "available"
  {
    if current == "available" then Sold else Available
  }

  /** The mutation `toggleStatus(id, currentStatus)` sends: the id and the new status. */
  function ToggleRequest(id: string, current: string): (r: UpdateRequest)
    ensures r.id == id
    ensures forall field :: Supplied(r.patch, field) == (if field == StatusField then Some(Stat(NewStatus(current))) else None)
  {
    StatusOnlyPatch(NewStatus(current));
    UpdateRequest(id, NoChanges.(status := Some(NewStatus(current))))
  }

  lemma StatusOnlyPatch(s: Status)
    ensures forall field :: Supplied(NoChanges.(status := Some(s)), field) == (if field == StatusField then Some(Stat(s)) else None)
  {
    forall field ensures Supplied(NoChanges.(status := Some(s)), field) == (if field == StatusField then Some(Stat(s)) else None) {
      match field
      case StatusField =>
      case _ =>
    }
  }

  /** The toggle moves a car to the other status. */
  lemma ToggleFlips(s: Status)
    ensures NewStatus(StatusText(s)) != s
  {
  }

  /** Toggling twice restores the original status. */
  lemma ToggleTwiceRestores(s: Status)
    ensures NewStatus(StatusText(NewStatus(StatusText(s)))) == s
  {
  }

  /** Applied to a row, the toggle rewrites the status and nothing else. */
  lemma ToggleWritesOnlyStatus(c: Car, id: string, current: string, field: Field)
    ensures ApplyPatch(c, ToggleRequest(id, current).patch).id == c.id
    ensures Get(ApplyPatch(c, ToggleRequest(id, current).patch), field)
         == (if field == StatusField then Stat(NewStatus(current)) else Get(c, field))
  {
    PatchWritesOnlySuppliedFields(c, ToggleRequest(id, current).patch, field);
  }

  // ---------------------------------------------------------------------------
  // stats

  datatype Stats = Stats(total: nat, available: nat, sold: nat, totalValue: int)

  function CountStatus(cars: seq<Car>, s: Status): nat {
    |Filter(cars, (c: Car) => c.status == s)|
  }

  /** The sum of the prices, as a plain recursive reference. */
  function PriceTotal(cars: seq<Car>): int {
    if cars == [] then 0 else cars[0].price + PriceTotal(cars[1..])
  }

  /** `reduce((sum, c) => sum + Number(c.price), acc)`: a left fold from `acc`. */
  function FoldPrices(acc: int, cars: seq<Car>): (r: int)
    ensures r == acc + PriceTotal(cars)
    decreases |cars|
  {
    if cars == [] then acc else FoldPrices(acc + cars[0].price, cars[1..])
  }

  /** The four dashboard counters; all are 0 while there is no data. */
  function InventoryStats(cars: Option<seq<Car>>): (st: Stats)
    ensures cars.None? ==> st == Stats(0, 0, 0, 0)
    ensures cars.Some? ==> st.total == |cars.value| && st.totalValue == PriceTotal(cars.value)
    ensures cars.Some? ==> st.available + st.sold == st.total
    ensures cars.Some? ==> (st.available == CountStatus(cars.value, Available)
                            && st.sold == CountStatus(cars.value, Sold))
  {
    match cars
    case None => Stats(0, 0, 0, 0)
    case Some(cs) =>
      StatusesPartition(cs);
      Stats(|cs|, CountStatus(cs, Available), CountStatus(cs, Sold), FoldPrices(0, cs))
  }

  /** Every car is either available or sold, so the two counts add up to the total. */
  lemma {:induction false} StatusesPartition(cars: seq<Car>)
    ensures CountStatus(cars, Available) + CountStatus(cars, Sold) == |cars|
  {
    if cars != [] {
      StatusesPartition(cars[1..]);
    }
  }

  /** The value of two inventories together is the sum of their values. */
  lemma {:induction false} PriceTotalAppend(a: seq<Car>, b: seq<Car>)
    ensures PriceTotal(a + b) == PriceTotal(a) + PriceTotal(b)
  {
    if a == [] {
      assert a + b == b;
    } else {
      PriceTotalAppend(a[1..], b);
      assert (a + b)[1..] == a[1..] + b;
    }
  }

  /** With no negative price the total value is never negative. */
  lemma {:induction false} PriceTotalNonNegative(cars: seq<Car>)
    requires forall c :: c in cars ==> c.price >= 0
    ensures PriceTotal(cars) >= 0
  {
    if cars != [] {
      assert cars[0] in cars;
      assert forall c :: c in cars[1..] ==> c in cars;
      PriceTotalNonNegative(cars[1..]);
    }
  }

  // ---------------------------------------------------------------------------
  // deleteId and handleDelete

  /** The delete-confirmation dialog: open while `deleteId` holds a non-empty id. */
  class DeleteDialog {
    var deleteId: Option<string>

    constructor()
      ensures deleteId == None
    {
      deleteId := None;
    }

    /** `open={!!deleteId}`. */
    predicate IsOpen()
      reads this
    {
      TruthyText(deleteId)
    }

    /** The trash button of a row: `setDeleteId(car.id)`. */
    method RequestDelete(id: string)
      modifies this
      ensures deleteId == Some(id)
      ensures IsOpen() <==> id != ""
    {
      deleteId := Some(id);
    }

    /** Closing the dialog: `setDeleteId(null)`. */
    method Dismiss()
      modifies this
      ensures deleteId == None && !IsOpen()
    {
      deleteId := None;
    }

    /** `handleDelete`: with no id it does nothing; otherwise it deletes the row
        and, only once the delete has succeeded, clears the id. A failed delete
        leaves both the table and the id as they were. */
    method HandleDelete(rows: seq<Car>, deleteSucceeds: bool) returns (rows': seq<Car>)
      modifies this
      ensures !old(IsOpen()) ==> rows' == rows && deleteId == old(deleteId)
      ensures old(IsOpen()) && !deleteSucceeds ==> rows' == rows && deleteId == old(deleteId)
      ensures old(IsOpen()) && deleteSucceeds ==>
                rows' == DeleteCarRows(rows, old(deleteId).value) && deleteId == None
      ensures old(IsOpen()) && deleteSucceeds ==> forall c :: c in rows' ==> c.id != old(deleteId).value
    {
      rows' := rows;
      if TruthyText(deleteId) {
        if deleteSucceeds {
          rows' := DeleteCarRows(rows, deleteId.value);
          deleteId := None;
        }
      }
    }
  }
}
