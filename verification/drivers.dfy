/**
 * Drivers of the taxi park (class `Driver` in src/TaxiSystem.py) and the
 * lookup "first driver in list order with a given id" that the park uses.
 */
module Drivers {
  import opened Wrappers

  /** A driver. The park writes `isAvailable` and `currentOrder` in place, and
      the same object is shared by the park's driver list, its observer list
      and the caller, so it is a class. `currentOrder` holds the id of the
      order the source keeps as an object reference. */
  class Driver {
    const id: int
    const name: string
    var isAvailable: bool
    var currentOrder: Option<int>

    /** `Driver(driver_id, name)`: available and without an order. */
    constructor (id: int, name: string)
      ensures this.id == id && this.name == name
      ensures isAvailable && currentOrder == None
    {
      this.id := id;
      this.name := name;
      isAvailable := true;
      currentOrder := None;
    }

    /** The driver state invariant: a driver holds an order exactly when it is
        not available. */
    predicate Consistent()
      reads this
    {
      currentOrder.Some? <==> !isAvailable
    }
  }

  /** Index of the first driver in `ds` whose id is `id`, if any. */
  function FirstWithId(ds: seq<Driver>, id: int): (r: Option<nat>)
    ensures r.Some? ==> r.value < |ds| && ds[r.value].id == id
    ensures r.Some? ==> forall j :: 0 <= j < r.value ==> ds[j].id != id
    ensures r.None? <==> forall j :: 0 <= j < |ds| ==> ds[j].id != id
  {
    if |ds| == 0 then None
    else if ds[0].id == id then Some(0)
    else
      match FirstWithId(ds[1..], id)
      case None => None
      case Some(i) => Some(i + 1)
  }

  /** Appending a driver never changes which driver is found first for an id
      that was already present: the binding from id to driver object made at
      assignment time stays the one the lookup returns. */
  lemma FirstWithIdAppend(ds: seq<Driver>, d: Driver, id: int)
    ensures FirstWithId(ds, id).Some? ==> FirstWithId(ds + [d], id) == FirstWithId(ds, id)
    ensures FirstWithId(ds, id).None? ==>
      FirstWithId(ds + [d], id) == if d.id == id then Some(|ds|) else None
  {
    var ds' := ds + [d];
    assert forall j :: 0 <= j < |ds| ==> ds'[j] == ds[j];
    assert ds'[|ds|] == d;
  }

  /** `next((d for d in drivers if d.driver_id == driver_id), None)`: scans the
      list front to back and stops at the first match. */
  method FindDriver(ds: seq<Driver>, id: int) returns (r: Option<nat>)
    ensures r == FirstWithId(ds, id)
  {
    var i := 0;
    while i < |ds|
      invariant 0 <= i <= |ds|
      invariant forall j :: 0 <= j < i ==> ds[j].id != id
    {
      if ds[i].id == id {
        return Some(i);
      }
      i := i + 1;
    }
    return None;
  }
}
