/**
 * The dispatch bookkeeping of class `TaxiPark` in src/TaxiSystem.py: the
 * driver list, the order table keyed by id, the order counter and the
 * observer list inherited from `OrderSubject`.
 */
module TaxiSystem {
  import opened Wrappers
  import opened Orders
  import opened Drivers
  import opened Observers

  /** The order-table part of the park invariant: every stored order sits
      under its own id, in [1, counter), and is well formed; the driver id of
      every assigned order names a driver of the park. */
  ghost predicate OrderTableValid(orders: map<int, Order>, counter: int, drivers: seq<Driver>)
  {
    && 1 <= counter
    && (forall k :: k in orders ==> 1 <= k < counter && orders[k].id == k && WellFormed(orders[k]))
    && (forall k :: k in orders && orders[k].driver.Some? ==> FirstWithId(drivers, orders[k].driver.value).Some?)
  }

  /** Storing a well-formed order under its own id keeps the table valid. */
  lemma OrderTableStore(orders: map<int, Order>, counter: int, drivers: seq<Driver>, o: Order)
    requires OrderTableValid(orders, counter, drivers)
    requires 1 <= o.id < counter && WellFormed(o)
    requires o.driver.Some? ==> FirstWithId(drivers, o.driver.value).Some?
    ensures OrderTableValid(orders[o.id := o], counter, drivers)
  {
  }

  /** Appending a driver keeps the table valid: every driver id already bound
      still finds its driver. */
  lemma OrderTableAddDriver(orders: map<int, Order>, counter: int, drivers: seq<Driver>, d: Driver)
    requires OrderTableValid(orders, counter, drivers)
    ensures OrderTableValid(orders, counter, drivers + [d])
  {
    forall k | k in orders && orders[k].driver.Some?
      ensures FirstWithId(drivers + [d], orders[k].driver.value).Some?
    {
      FirstWithIdAppend(drivers, d, orders[k].driver.value);
    }
  }

  class TaxiPark {
    var drivers: seq<Driver>
    var orders: map<int, Order>
    var orderCounter: int
    var observers: seq<Driver>

    /** The object invariant: the order table is valid and no observer is
        attached twice. */
    ghost predicate Valid()
      reads this
    {
      OrderTableValid(orders, orderCounter, drivers) && Distinct(observers)
    }

    /** The driver object an assigned order is bound to: the first driver in
        the list carrying the order's driver id. */
    function AssignedDriver(k: int): Driver
      reads this
      requires Valid() && k in orders && orders[k].driver.Some?
    {
      drivers[FirstWithId(drivers, orders[k].driver.value).value]
    }

    /** "A driver holds an order exactly when it is not available", for every driver. */
    predicate DriversConsistent()
      reads this, drivers
    {
      forall i :: 0 <= i < |drivers| ==> drivers[i].Consistent()
    }

    /** The two references agree: an order in progress is the current order of
        the driver it is bound to, and a driver's current order is an order in
        progress bound to that very driver. */
    ghost predicate Linked()
      reads this, drivers
      requires Valid()
    {
      && (forall k :: k in orders && orders[k].status == InProgress ==>
            AssignedDriver(k).currentOrder == Some(k))
      && (forall i :: 0 <= i < |drivers| && drivers[i].currentOrder.Some? ==>
            var k := drivers[i].currentOrder.value;
            && k in orders
            && orders[k].status == InProgress
            && orders[k].driver == Some(drivers[i].id)
            && AssignedDriver(k) == drivers[i])
    }

    /** The ids of the completed orders. */
    ghost function CompletedIds(): set<int>
      reads this
    {
      set k | k in orders && orders[k].status == Completed
    }

    /** `TaxiPark()`: no drivers, no orders, no observers, counter at 1. */
    constructor ()
      ensures Valid() && DriversConsistent() && Linked()
      ensures drivers == [] && orders == map[] && orderCounter == 1 && observers == []
    {
      drivers := [];
      orders := map[];
      orderCounter := 1;
      observers := [];
    }

    /** `get_order_status`: the status of a known order; an unknown id is
        answered with the status of a fresh dummy order, i.e. pending. */
    function GetOrderStatus(orderId: int): (s: Status)
      reads this
      ensures orderId in orders ==> s == orders[orderId].status
      ensures orderId !in orders ==> s == Pending
    {
      (if orderId in orders then orders[orderId] else NewOrder(0, 0, "", "")).status
    }

    /** `calculate_total_earnings`: the prices of the completed orders summed in
        id order, which is the order the dictionary was filled in. Since each
        completed order carries the fixed fare, it is the fare times their number. */
    function TotalEarnings(): (total: real)
      reads this
      requires Valid()
      ensures total == Price * (|CompletedIds()| as real)
      ensures total >= 0.0
    {
      CompletedIdsInRange();
      CompletedSumCount(orders, 1, orderCounter);
      CompletedSum(orders, 1, orderCounter)
    }

    /** The stored completed ids all lie in [1, counter) and carry the fare. */
    lemma CompletedIdsInRange()
      requires Valid()
      ensures CompletedIds() == CompletedIn(orders, 1, orderCounter)
      ensures forall k :: k in orders && orders[k].status == Completed ==> orders[k].price == Price
    {
    }

    /** `create_order`: the new order gets the current counter as id, is stored
        under it as a pending order without driver and price, and the counter
        moves on. Ids therefore grow strictly and no stored order is touched. */
    method CreateOrder(clientId: int, pickup: string, destination: string) returns (order: Order)
      requires Valid()
      modifies this
      ensures Valid()
      ensures order == NewOrder(old(orderCounter), clientId, pickup, destination)
      ensures order.status == Pending && order.driver == None && order.price == 0.0
      ensures order.id !in old(orders) && forall k :: k in old(orders) ==> k < order.id
      ensures orders == old(orders)[order.id := order]
      ensures orderCounter == old(orderCounter) + 1
      ensures drivers == old(drivers) && observers == old(observers)
      ensures GetOrderStatus(order.id) == Pending
      ensures TotalEarnings() == old(TotalEarnings())
      ensures old(Linked()) ==> Linked()
    {
      order := NewOrder(orderCounter, clientId, pickup, destination);
      orders := orders[order.id := order];
      orderCounter := orderCounter + 1;
      CompletedSumUpdate(old(orders), order.id, order, 1, old(orderCounter));
    }

    /** `add_driver`: appends the driver and attaches it as an observer. */
    method AddDriver(driver: Driver)
      requires Valid()
      modifies this
      ensures Valid()
      ensures drivers == old(drivers) + [driver]
      ensures observers == Attached(old(observers), driver)
      ensures orders == old(orders) && orderCounter == old(orderCounter)
      ensures old(DriversConsistent()) && driver.Consistent() ==> DriversConsistent()
      ensures old(Linked()) && driver.currentOrder.None? ==> Linked()
    {
      OrderTableAddDriver(orders, orderCounter, drivers, driver);
      forall id | FirstWithId(drivers, id).Some?
        ensures FirstWithId(drivers + [driver], id) == FirstWithId(drivers, id)
      {
        FirstWithIdAppend(drivers, driver, id);
      }
      drivers := drivers + [driver];
      Attach(driver);
    }

    /** `attach`: adds an observer unless it is already attached. */
    method Attach(observer: Driver)
      requires Valid()
      modifies this
      ensures Valid()
      ensures observers == Attached(old(observers), observer)
      ensures drivers == old(drivers) && orders == old(orders) && orderCounter == old(orderCounter)
    {
      AttachedProperties(observers, observer);
      if observer !in observers {
        observers := observers + [observer];
      }
    }

    /** `detach`: removes the observer from the list; it is then no longer attached. */
    method Detach(observer: Driver)
      requires Valid()
      requires observer in observers
      modifies this
      ensures Valid()
      ensures observers == RemoveFirst(old(observers), observer)
      ensures observer !in observers
      ensures drivers == old(drivers) && orders == old(orders) && orderCounter == old(orderCounter)
    {
      RemoveFirstDistinct(observers, observer);
      observers := RemoveFirst(observers, observer);
    }

    /** `notify`: `update` is called on every attached observer that is
        available, in attach order; the result lists those observers. */
    method Notify(order: Order) returns (notified: seq<Driver>)
      ensures notified == AvailableAmong(observers)
    {
      notified := [];
      for i := 0 to |observers|
        invariant notified == AvailableAmong(observers[..i])
      {
        assert observers[..i + 1][..i] == observers[..i];
        if observers[i].isAvailable {
          notified := notified + [observers[i]];
        }
      }
      assert observers[..|observers|] == observers;
    }

    /** The guard of `assign_driver_to_order`: the order exists and is pending,
        a driver with the id exists and the first such driver is available. */
    predicate CanAssign(orderId: int, driverId: int)
      reads this, drivers
    {
      && orderId in orders
      && orders[orderId].status == Pending
      && FirstWithId(drivers, driverId).Some?
      && drivers[FirstWithId(drivers, driverId).value].isAvailable
    }

    /** `assign_driver_to_order`: succeeds exactly when the guard holds; then
        the order is in progress with the driver and the fare, and the driver
        is busy with the order. Otherwise nothing changes. */
    method AssignDriverToOrder(orderId: int, driverId: int) returns (ok: bool)
      requires Valid()
      modifies this, drivers
      ensures Valid()
      ensures drivers == old(drivers) && observers == old(observers) && orderCounter == old(orderCounter)
      ensures ok == old(CanAssign(orderId, driverId))
      ensures ok ==>
        var d := drivers[FirstWithId(drivers, driverId).value];
        && orders == old(orders)[orderId := old(orders[orderId]).(status := InProgress, driver := Some(driverId), price := Price)]
        && !d.isAvailable && d.currentOrder == Some(orderId)
        && (forall e :: e in drivers && e != d ==>
              e.isAvailable == old(e.isAvailable) && e.currentOrder == old(e.currentOrder))
      ensures !ok ==>
        && orders == old(orders)
        && (forall e :: e in drivers ==> e.isAvailable == old(e.isAvailable) && e.currentOrder == old(e.currentOrder))
      ensures Advanced(old(orders), orders)
      ensures TotalEarnings() == old(TotalEarnings())
      ensures old(DriversConsistent()) ==> DriversConsistent()
      ensures old(Linked() && DriversConsistent()) ==> Linked()
    {
      var k := FindDriver(drivers, driverId);
      if orderId in orders && k.Some? && drivers[k.value].isAvailable && orders[orderId].status == Pending {
        var d := drivers[k.value];
        orders := orders[orderId := orders[orderId].(status := InProgress)];
        orders := orders[orderId := orders[orderId].(driver := Some(driverId))];
        d.currentOrder := Some(orderId);
        d.isAvailable := false;
        orders := orders[orderId := orders[orderId].(price := Price)];
        AssignKeepsInvariants(orderId, driverId, d);
        ok := true;
      } else {
        ok := false;
      }
    }

    /** What a successful assignment leaves behind keeps every invariant, the
        earnings and the progress of statuses. */
    twostate lemma AssignKeepsInvariants(new orderId: int, new driverId: int, new d: Driver)
      requires old(Valid())
      requires drivers == old(drivers) && observers == old(observers) && orderCounter == old(orderCounter)
      requires orderId in old(orders) && old(orders[orderId].status) == Pending
      requires FirstWithId(drivers, driverId).Some? && drivers[FirstWithId(drivers, driverId).value] == d
      requires old(d.isAvailable)
      requires orders == old(orders)[orderId := old(orders[orderId]).(status := InProgress, driver := Some(driverId), price := Price)]
      requires !d.isAvailable && d.currentOrder == Some(orderId)
      requires forall e :: e in drivers && e != d ==>
                 e.isAvailable == old(e.isAvailable) && e.currentOrder == old(e.currentOrder)
      ensures Valid()
      ensures Advanced(old(orders), orders)
      ensures TotalEarnings() == old(TotalEarnings())
      ensures old(DriversConsistent()) ==> DriversConsistent()
      ensures old(Linked() && DriversConsistent()) ==> Linked()
    {
      OrderTableStore(old(orders), orderCounter, drivers, orders[orderId]);
      CompletedSumUpdate(old(orders), orderId, orders[orderId], 1, orderCounter);
      AdvancedByStep(old(orders), orderId, orders[orderId]);
      if old(DriversConsistent()) {
        forall i | 0 <= i < |drivers| ensures drivers[i].Consistent() {
          if drivers[i] != d {
            assert drivers[i] in drivers;
          }
        }
      }
      if old(Linked() && DriversConsistent()) {
        AssignKeepsLinked(orderId, driverId, d);
      }
    }

    /** An assignment that binds a free driver to a pending order keeps the
        order and the driver pointing at each other, provided every free driver
        was without an order. */
    twostate lemma AssignKeepsLinked(new orderId: int, new driverId: int, new d: Driver)
      requires old(Valid()) && old(Linked()) && old(DriversConsistent()) && Valid()
      requires drivers == old(drivers)
      requires orderId in old(orders) && old(orders[orderId].status) == Pending
      requires FirstWithId(drivers, driverId).Some? && drivers[FirstWithId(drivers, driverId).value] == d
      requires old(d.isAvailable)
      requires orders == old(orders)[orderId := old(orders[orderId]).(status := InProgress, driver := Some(driverId), price := Price)]
      requires d.currentOrder == Some(orderId)
      requires forall e :: e in drivers && e != d ==> e.currentOrder == old(e.currentOrder)
      ensures Linked()
    {
      assert old(d.currentOrder) == None by {
        assert old(drivers[FirstWithId(drivers, driverId).value].Consistent());
      }
      forall j | j in orders && orders[j].status == InProgress
        ensures AssignedDriver(j).currentOrder == Some(j)
      {
        if j != orderId {
          assert old(AssignedDriver(j).currentOrder) == Some(j);
        }
      }
      forall i | 0 <= i < |drivers| && drivers[i].currentOrder.Some?
        ensures drivers[i].currentOrder.value in orders
        ensures orders[drivers[i].currentOrder.value].status == InProgress
        ensures orders[drivers[i].currentOrder.value].driver == Some(drivers[i].id)
        ensures AssignedDriver(drivers[i].currentOrder.value) == drivers[i]
      {
        if drivers[i] != d {
          assert drivers[i] in drivers;
        }
      }
    }

    /** The guard of `complete_order`: the order exists, is in progress and has a driver. */
    predicate CanComplete(orderId: int)
      reads this
    {
      orderId in orders && orders[orderId].status == InProgress && orders[orderId].driver.Some?
    }

    /** `complete_order`: an order in progress becomes completed and its driver
        is free again without a current order; the price stays. In every other
        case nothing changes. */
    method CompleteOrder(orderId: int)
      requires Valid()
      modifies this, drivers
      ensures Valid()
      ensures drivers == old(drivers) && observers == old(observers) && orderCounter == old(orderCounter)
      ensures old(CanComplete(orderId)) ==>
        var d := old(AssignedDriver(orderId));
        && orders == old(orders)[orderId := old(orders[orderId]).(status := Completed)]
        && d == AssignedDriver(orderId)
        && d.isAvailable && d.currentOrder == None
        && (forall e :: e in drivers && e != d ==>
              e.isAvailable == old(e.isAvailable) && e.currentOrder == old(e.currentOrder))
      ensures !old(CanComplete(orderId)) ==>
        && orders == old(orders)
        && (forall e :: e in drivers ==> e.isAvailable == old(e.isAvailable) && e.currentOrder == old(e.currentOrder))
      ensures Advanced(old(orders), orders)
      ensures TotalEarnings() == old(TotalEarnings()) + (if old(CanComplete(orderId)) then Price else 0.0)
      ensures old(DriversConsistent()) ==> DriversConsistent()
      ensures old(Linked()) ==> Linked()
    {
      if orderId in orders && orders[orderId].status == InProgress && orders[orderId].driver.Some? {
        orders := orders[orderId := orders[orderId].(status := Completed)];
        var k := FindDriver(drivers, orders[orderId].driver.value);
        if k.Some? {
          var d := drivers[k.value];
          d.isAvailable := true;
          d.currentOrder := None;
          CompleteKeepsInvariants(orderId, d);
        }
      }
    }

    /** What a completion leaves behind keeps every invariant and the progress
        of statuses, and adds the order's fare to the earnings. */
    twostate lemma CompleteKeepsInvariants(new orderId: int, new d: Driver)
      requires old(Valid()) && old(CanComplete(orderId))
      requires drivers == old(drivers) && observers == old(observers) && orderCounter == old(orderCounter)
      requires d == old(AssignedDriver(orderId))
      requires orders == old(orders)[orderId := old(orders[orderId]).(status := Completed)]
      requires d.isAvailable && d.currentOrder == None
      requires forall e :: e in drivers && e != d ==>
                 e.isAvailable == old(e.isAvailable) && e.currentOrder == old(e.currentOrder)
      ensures Valid()
      ensures Advanced(old(orders), orders)
      ensures TotalEarnings() == old(TotalEarnings()) + Price
      ensures old(DriversConsistent()) ==> DriversConsistent()
      ensures old(Linked()) ==> Linked()
    {
      OrderTableStore(old(orders), orderCounter, drivers, orders[orderId]);
      CompletedSumUpdate(old(orders), orderId, orders[orderId], 1, orderCounter);
      AdvancedByStep(old(orders), orderId, orders[orderId]);
      if old(DriversConsistent()) {
        forall i | 0 <= i < |drivers| ensures drivers[i].Consistent() {
          if drivers[i] != d {
            assert drivers[i] in drivers;
          }
        }
      }
      if old(Linked()) {
        CompleteKeepsLinked(orderId, d);
      }
    }

    /** Completing an order frees exactly the driver bound to it, so the other
        orders in progress and their drivers still point at each other. */
    twostate lemma CompleteKeepsLinked(new orderId: int, new d: Driver)
      requires old(Valid()) && old(Linked()) && old(CanComplete(orderId)) && Valid()
      requires drivers == old(drivers)
      requires d == old(AssignedDriver(orderId))
      requires orders == old(orders)[orderId := old(orders[orderId]).(status := Completed)]
      requires d.currentOrder == None
      requires forall e :: e in drivers && e != d ==> e.currentOrder == old(e.currentOrder)
      ensures Linked()
    {
      forall j | j in orders && orders[j].status == InProgress
        ensures AssignedDriver(j).currentOrder == Some(j)
      {
        assert old(AssignedDriver(j).currentOrder) == Some(j);
        assert old(AssignedDriver(j)) != d;
      }
      forall i | 0 <= i < |drivers| && drivers[i].currentOrder.Some?
        ensures drivers[i].currentOrder.value in orders
        ensures orders[drivers[i].currentOrder.value].status == InProgress
        ensures orders[drivers[i].currentOrder.value].driver == Some(drivers[i].id)
        ensures AssignedDriver(drivers[i].currentOrder.value) == drivers[i]
      {
        assert drivers[i] != d;
        assert drivers[i] in drivers;
        assert drivers[i].currentOrder == old(drivers[i].currentOrder);
        assert drivers[i].currentOrder.value != orderId;
      }
    }

    /** `update_driver_availability`: sets the availability of the first driver
        with the id and leaves its current order alone; no such driver, no change. */
    method UpdateDriverAvailability(driverId: int, available: bool)
      requires Valid()
      modifies drivers
      ensures Valid()
      ensures FirstWithId(drivers, driverId).Some? ==>
        var d := drivers[FirstWithId(drivers, driverId).value];
        && d.isAvailable == available && d.currentOrder == old(d.currentOrder)
        && (forall e :: e in drivers && e != d ==>
              e.isAvailable == old(e.isAvailable) && e.currentOrder == old(e.currentOrder))
      ensures FirstWithId(drivers, driverId).None? ==>
        forall e :: e in drivers ==> e.isAvailable == old(e.isAvailable) && e.currentOrder == old(e.currentOrder)
      ensures old(Linked()) ==> Linked()
    {
      var k := FindDriver(drivers, driverId);
      if k.Some? {
        drivers[k.value].isAvailable := available;
      }
    }
  }
}
