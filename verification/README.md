# Taxi park dispatch bookkeeping, modelled in Dafny

This project models the dispatch core of a small taxi system, class `TaxiPark` in
`src/TaxiSystem.py`, and proves its contracts:

- The park keeps a list of drivers, a table of orders keyed by id, an order
  counter starting at 1, and the observer list it inherits from `OrderSubject`.
- An order moves through the lifecycle pending → in progress → completed.
  `create_order` registers a pending order under the next id.
  `assign_driver_to_order` binds a free driver to a pending order at the fixed
  fare of 10. `complete_order` closes an order in progress and frees its driver.
- `update_driver_availability` sets a driver's availability by hand.
- `get_order_status` reports a status, and `calculate_total_earnings` sums the
  fares of the completed orders.
- `attach`, `detach` and `notify` maintain the observer list and say which
  drivers hear about an order.

Files:

- `wrappers.dfy`: `Option`, standing in for Python's `None`.
- `orders.dfy` (module `Orders`): the `Order` record, the three statuses, the
  fare, and the earnings sum with its lemmas.
- `drivers.dfy` (module `Drivers`): class `Driver`, whose availability and current
  order are written in place. Also the "first driver with this id" lookup as a
  function, and the scanning loop proved against it.
- `observers.dfy` (module `Observers`): the list operations behind `attach`,
  `detach` and `notify`, with their lemmas.
- `taxi_park.dfy` (module `TaxiSystem`): class `TaxiPark` with the fields of the
  source. Its methods update them in place, under the object invariant `Valid()`.
  Two further invariants are stated beside it:
  - `DriversConsistent()`: a driver holds an order exactly when it is not available.
  - `Linked()`: an order in progress and its driver point at each other.

  Completing preserves each. Assigning preserves `DriversConsistent()`, and
  `Linked()` when `DriversConsistent()` held as well. Setting availability by
  hand preserves `Linked()` but not `DriversConsistent()`, after which an
  assignment can break `Linked()`.
- `scenarios.dfy` (module `Scenarios`): client runs that mirror the repository's
  lifecycle and earnings tests and show the consequences of a manual
  availability change.

Representation choices:

- The source's statuses are the strings "pending", "in_progress" and "completed".
  Here they are the datatype `Status`.
- The fare is the constant `10.0` set at assignment (src/TaxiSystem.py:128).
  Here it is the real constant `Price`.
- An order's `driver` is the driver's id, and a driver's `current_order` is the
  order's id. The source keeps object references there.
  - `CompleteOrder` reaches the order's driver by looking up the first driver
    with that id, where the source follows the object reference.
  - That is the same object `assign_driver_to_order` bound: the driver list only
    grows at its end, so the first match for an id never moves.
    `Drivers.FirstWithIdAppend` proves this.
- Observers are `Driver` objects compared by identity, as Python's `in` and
  `list.remove` compare objects that define no equality.
- `notify` calls `update` on every attached driver that is available
  (src/TaxiSystem.py:16-19). `Notify` returns those drivers. `Driver.update`
  only prints a message, and printing is not modelled.
- `get_order_status` answers an unknown id with the status of a fresh dummy
  order, which is pending (src/TaxiSystem.py:140). `GetOrderStatus` does the same.

## Model

| member | source | states |
|---|---|---|
| `Drivers.Driver.constructor` | src/TaxiSystem.py:23-27 | a new driver carries the given id and name, is available and has no current order |
| `Drivers.FirstWithId` | src/TaxiSystem.py:121 | the result is the index of a driver with the id, and no earlier driver has it; no result means no driver has the id |
| `Drivers.FindDriver` | src/TaxiSystem.py:121 | the front-to-back scan returns exactly the first driver with the id, or none |
| `Drivers.FirstWithIdAppend` | src/TaxiSystem.py:113 | appending a driver keeps the first match of every id already present; for an id seen for the first time, the new driver is the match |
| `Observers.AttachedProperties` | src/TaxiSystem.py:9-11 | attach keeps the list free of repetitions, adds exactly the new observer, and attaching the same observer again changes nothing |
| `Observers.RemoveFirstMultiset` | src/TaxiSystem.py:13-14 | removal drops exactly one occurrence of the observer: the multiset of observers loses one copy and the length drops by one |
| `Observers.RemoveFirstDistinct` | src/TaxiSystem.py:13-14 | on a list without repetitions, detach removes the observer altogether, keeps every other one and leaves no repetitions |
| `Observers.DetachUndoesAttach` | src/TaxiSystem.py:9-14 | detaching an observer right after attaching it restores the previous list |
| `Observers.AvailableAmong` | src/TaxiSystem.py:16-19 | the notified drivers are attached and available, every attached available driver is notified, and there are no more of them than observers |
| `Observers.AvailableAmongAppend` | src/TaxiSystem.py:16-19 | the drivers notified for a concatenated observer list are those of the first part followed by those of the second, so attach order is kept |
| `Observers.AvailableAmongCount` | src/TaxiSystem.py:16-19 | an available driver is notified exactly as often as it is attached, an unavailable one never |
| `Observers.AvailableAmongOrder` | src/TaxiSystem.py:16-19 | of two available observers, the one attached earlier is notified earlier |
| `Orders.CompletedSumUpdate` | src/TaxiSystem.py:147-150 | changing or inserting one order changes the earnings sum by exactly the change in that order's contribution, and not at all outside the summed id range |
| `Orders.CompletedSumCount` | src/TaxiSystem.py:147-150 | when every completed order carries the fixed fare, the sum is the fare times the number of completed orders |
| `TaxiSystem.TaxiPark.constructor` | src/TaxiSystem.py:96-101 | a new park has no drivers, orders or observers, its counter is 1, and all invariants hold |
| `TaxiSystem.TaxiPark.GetOrderStatus` | src/TaxiSystem.py:139-140 | a known order's status is returned; an unknown id yields pending rather than an error |
| `TaxiSystem.TaxiPark.TotalEarnings` | src/TaxiSystem.py:147-150 | total earnings are the fare times the number of completed orders, and never negative |
| `TaxiSystem.TaxiPark.CreateOrder` | src/TaxiSystem.py:103-107 | the new order's id is the old counter, larger than every existing id; it is stored pending, without driver, at price 0; the counter grows by one; no other order changes; earnings are unchanged |
| `TaxiSystem.TaxiPark.AddDriver` | src/TaxiSystem.py:112-114 | the driver is appended and attached unless already attached; orders are untouched; both driver invariants survive when the new driver satisfies them |
| `TaxiSystem.TaxiPark.Attach` | src/TaxiSystem.py:9-11 | the observer list gains the observer only if it was absent; nothing else changes |
| `TaxiSystem.TaxiPark.Detach` | src/TaxiSystem.py:13-14 | the first occurrence of the observer is removed, after which it is no longer attached; nothing else changes |
| `TaxiSystem.TaxiPark.Notify` | src/TaxiSystem.py:16-19 | the drivers notified are the attached ones available at the time of the call, in attach order |
| `TaxiSystem.TaxiPark.AssignDriverToOrder` | src/TaxiSystem.py:119-130 | returns true exactly when the order exists and is pending and the first driver with the id is available. On true: the order is in progress with that driver and price 10, and the driver is busy with the order. On false nothing changes. Statuses never go back, earnings stay, both invariants are preserved |
| `TaxiSystem.TaxiPark.CompleteOrder` | src/TaxiSystem.py:132-137 | an existing order in progress with a driver becomes completed at unchanged price, and its driver becomes available with no current order; earnings grow by the fare. Otherwise nothing changes. Statuses never go back, both invariants are preserved |
| `TaxiSystem.TaxiPark.UpdateDriverAvailability` | src/TaxiSystem.py:142-145 | the first driver with the id takes the given availability and keeps its current order, and no other driver changes; without such a driver nothing changes; the order-driver link survives |
| `Scenarios.TwoDriverPark` | src/TestTaxiSystem.py:13-33 | two drivers added to a new park are both listed, attached and free |
| `Scenarios.OrderLifecycle` | src/TestTaxiSystem.py:84-111 | a requested order is pending; accepted and completed by driver 2, it ends completed at price 10 with the driver free and without an order |
| `Scenarios.FinancialReport` | src/TestTaxiSystem.py:114-132 | two rides, accepted and completed by two drivers, earn 20 |
| `Scenarios.BusyDriverWaits` | src/TaxiSystem.py:119-137 | later orders get larger ids. A busy driver, an unknown order and an unknown driver are refused. After completing its order the driver can accept the waiting one |
| `Scenarios.NotifySkipsBusyDrivers` | src/TaxiSystem.py:16-19 | a driver set unavailable is not notified, and the available one is |
| `Scenarios.ManualAvailabilityBreaksInvariant` | src/TaxiSystem.py:142-145 | freeing a busy driver by hand breaks "holds an order iff unavailable". The driver then accepts a second order, and completing the first frees it while the second is still in progress |

## Left out

- `Car` and `add_car` (src/TaxiSystem.py:34-39, 116-117) are a car inventory that no decision reads.
- The facades `ClientInterface`, `OwnerInterface` and `DriverInterface` (src/TaxiSystem.py:53-92) only delegate to the park. `request_ride` is `create_order` followed by `notify`, which is how the scenarios request rides.
- `notify_drivers` (src/TaxiSystem.py:109-110) only calls `notify` and is covered by `Notify`.
- The message `Driver.update` prints is console output. `Notify` records only which drivers it reaches.
- `create_order` returns the `Order` object, and a caller holding it sees its later changes. `CreateOrder` returns the record as created; later states are read from the park's order table.
- Callers in Python can write driver and park fields directly. The model changes them only through the park's methods.
- A driver object appended twice to the driver list is not excluded. Lookups always reach its first position, as in the source.
- `TaxiSystem.TaxiPark.Detach`: requires the observer to be attached, where `list.remove` raises `ValueError` instead.
- `TaxiSystem.TaxiPark.TotalEarnings`: requires the object invariant, because it sums ids 1 to counter − 1. That equals the source's sum over all stored orders only when every stored id lies in that range, which every park built by these methods guarantees.
- `TaxiSystem.TaxiPark.AddDriver`: the invariant clauses are conditional on the driver being added in a consistent state. The source accepts any driver object.
- Prices are exact reals. Python's float sum of fares of 10.0 is exact at every realistic order count, so no rounding is modelled.
- src/TestTaxiSystem.py is not modelled beyond the lifecycle and earnings runs:
  - line 66 calls `assign_driver_to_order` with one argument;
  - lines 150, 162, 185 and 194 compare its boolean result with `-1`.
