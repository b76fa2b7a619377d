/**
 * Client runs of the park that exercise its specifications the way the
 * repository's unit tests do (src/TestTaxiSystem.py). A ride request is
 * `create_order` followed by `notify`, as `ClientInterface.request_ride` does.
 */
module Scenarios {
  import opened Wrappers
  import opened Orders
  import opened Drivers
  import opened TaxiSystem

  /** The park with the two drivers of the tests' set-up. */
  method TwoDriverPark() returns (park: TaxiPark, d1: Driver, d2: Driver)
    ensures fresh(park) && fresh(d1) && fresh(d2)
    ensures park.Valid() && park.DriversConsistent() && park.Linked()
    ensures park.drivers == [d1, d2] && park.observers == [d1, d2]
    ensures park.orders == map[] && park.orderCounter == 1
    ensures d1.id == 1 && d2.id == 2
    ensures d1.isAvailable && d2.isAvailable && d1.currentOrder == None && d2.currentOrder == None
  {
    park := new TaxiPark();
    d1 := new Driver(1, "Driver 1");
    d2 := new Driver(2, "Driver 2");
    park.AddDriver(d1);
    park.AddDriver(d2);
  }

  /** A full lifecycle: a requested order is pending, driver 2 accepts and
      completes it; the order ends completed at the fixed fare and the driver
      is free without an order. */
  method OrderLifecycle() returns (created: Status, accepted: bool, final: Status, available: bool,
                                   current: Option<int>, price: real)
    ensures created == Pending && accepted
    ensures final == Completed && available && current == None && price == 10.0
  {
    var park, d1, d2 := TwoDriverPark();
    var order := park.CreateOrder(103, "Station", "Club Street 62");
    var notified := park.Notify(order);
    created := park.GetOrderStatus(order.id);
    accepted := park.AssignDriverToOrder(order.id, 2);
    park.CompleteOrder(order.id);
    final := park.GetOrderStatus(order.id);
    available, current := d2.isAvailable, d2.currentOrder;
    price := park.orders[order.id].price;
  }

  /** One ride: a request, its acceptance by a free driver and its completion.
      The park earns one fare more and every driver ends as it began. */
  method Ride(park: TaxiPark, clientId: int, driverId: int) returns (order: Order)
    requires park.Valid()
    requires FirstWithId(park.drivers, driverId).Some?
    requires park.drivers[FirstWithId(park.drivers, driverId).value].isAvailable
    requires park.drivers[FirstWithId(park.drivers, driverId).value].currentOrder == None
    modifies park, park.drivers
    ensures park.Valid()
    ensures park.drivers == old(park.drivers) && park.observers == old(park.observers)
    ensures park.TotalEarnings() == old(park.TotalEarnings()) + Price
    ensures park.GetOrderStatus(order.id) == Completed
    ensures forall e :: e in park.drivers ==>
              e.isAvailable == old(e.isAvailable) && e.currentOrder == old(e.currentOrder)
  {
    order := park.CreateOrder(clientId, "pickup", "destination");
    var notified := park.Notify(order);
    var ok := park.AssignDriverToOrder(order.id, driverId);
    assert park.CanComplete(order.id);
    park.CompleteOrder(order.id);
  }

  /** Two orders, each accepted and completed by a different driver, earn the
      fare twice. */
  method FinancialReport() returns (total: real)
    ensures total == 20.0
  {
    var park, d1, d2 := TwoDriverPark();
    assert park.TotalEarnings() == 0.0;
    var order1 := Ride(park, 104, 1);
    var order2 := Ride(park, 105, 2);
    total := park.TotalEarnings();
  }

  /** The set-up of the two runs below: a park with two free drivers and two
      orders, the first of them accepted by driver 1. */
  method FirstOrderAccepted() returns (park: TaxiPark, d1: Driver, d2: Driver, first: int, second: int)
    ensures fresh(park) && fresh(d1) && fresh(d2)
    ensures park.Valid() && park.DriversConsistent() && park.Linked()
    ensures park.drivers == [d1, d2] && d1.id == 1 && d2.id == 2
    ensures first == 1 && second == 2 && park.orderCounter == 3
    ensures park.CanComplete(first) && park.AssignedDriver(first) == d1
    ensures second in park.orders && park.orders[second].status == Pending
    ensures !d1.isAvailable && d1.currentOrder == Some(first)
    ensures d2.isAvailable && d2.currentOrder == None
  {
    park, d1, d2 := TwoDriverPark();
    var order1 := park.CreateOrder(107, "Gallery", "Convent");
    var order2 := park.CreateOrder(108, "Old Arbat", "Hill");
    first, second := order1.id, order2.id;
    assert park.CanAssign(first, 1);
    var ok := park.AssignDriverToOrder(first, 1);
  }

  /** A busy driver cannot take a second order, an unknown order or driver is
      refused, and after completing the first order the driver can take the
      pending one. Successive orders get successive ids. */
  method BusyDriverWaits() returns (firstId: int, secondId: int, busy: bool, unknownOrder: bool,
                                    unknownDriver: bool, afterRelease: bool)
    ensures firstId < secondId
    ensures !busy && !unknownOrder && !unknownDriver && afterRelease
  {
    var park, d1, d2;
    park, d1, d2, firstId, secondId := FirstOrderAccepted();
    busy := park.AssignDriverToOrder(secondId, 1);
    assert 99 !in park.orders;
    unknownOrder := park.AssignDriverToOrder(99, 2);
    assert FirstWithId(park.drivers, 7).None?;
    unknownDriver := park.AssignDriverToOrder(secondId, 7);
    park.CompleteOrder(firstId);
    assert park.CanAssign(secondId, 1);
    afterRelease := park.AssignDriverToOrder(secondId, 1);
  }

  /** `notify` skips a driver that is not available. */
  method NotifySkipsBusyDrivers() returns (notified: seq<Driver>, d2: Driver)
    ensures notified == [d2]
  {
    var park, d1, d2' := TwoDriverPark();
    d2 := d2';
    park.UpdateDriverAvailability(1, false);
    var order := park.CreateOrder(106, "Lenin Avenue 61", "October Street 1");
    notified := park.Notify(order);
  }

  /** Setting a busy driver available by hand breaks "a driver holds an order
      exactly when it is not available": the driver then accepts a second
      order while still bound to the first, and completing the first frees it
      although the second is still in progress. */
  method ManualAvailabilityBreaksInvariant()
    returns (consistentBefore: bool, consistentAfter: bool, second: bool,
             freeWhileBusy: bool, secondStatus: Status)
    ensures consistentBefore && !consistentAfter && second
    ensures freeWhileBusy && secondStatus == InProgress
  {
    var park, d1, d2, firstId, secondId := FirstOrderAccepted();
    consistentBefore := park.DriversConsistent();
    park.UpdateDriverAvailability(1, true);
    assert d1.isAvailable && d1.currentOrder == Some(firstId);
    consistentAfter := park.DriversConsistent();
    assert park.CanAssign(secondId, 1);
    second := park.AssignDriverToOrder(secondId, 1);
    assert second && park.orders[secondId].status == InProgress;
    assert park.CanComplete(firstId) && park.AssignedDriver(firstId) == d1;
    park.CompleteOrder(firstId);
    assert park.orders[secondId].status == InProgress;
    freeWhileBusy := d1.isAvailable && d1.currentOrder == None;
    secondStatus := park.GetOrderStatus(secondId);
  }
}
