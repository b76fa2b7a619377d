/**
 * Order records of the taxi park (class `Order` in src/TaxiSystem.py) and the
 * bookkeeping over the order table: the lifecycle of a status and the sum of
 * the prices of completed orders.
 */
module Orders {
  import opened Wrappers

  /** The three values the source stores in `Order.status`:
      "pending", "in_progress" and "completed". */
  datatype Status = Pending | InProgress | Completed

  /** Position of a status in the lifecycle pending -> in_progress -> completed. */
  function Rank(s: Status): nat
  {
    match s
    case Pending => 0
    case InProgress => 1
    case Completed => 2
  }

  /** An order. The source's `driver` field holds a Driver object; here it holds
      that driver's id. */
  datatype Order = Order(
    id: int,
    clientId: int,
    pickup: string,
    destination: string,
    status: Status,
    driver: Option<int>,
    price: real)

  /** The fixed fare set when a driver is assigned. */
  const Price: real := 10.0

  /** `Order(order_id, client_id, pickup, destination)`: the initial record. */
  function NewOrder(id: int, clientId: int, pickup: string, destination: string): Order
  {
    Order(id, clientId, pickup, destination, Pending, None, 0.0)
  }

  /** What every stored order satisfies: it has a driver exactly when it has
      left `Pending`, and its price is 0 before assignment and the fare after. */
  predicate WellFormed(o: Order)
  {
    && (o.status == Pending <==> o.driver.None?)
    && o.price == (if o.status == Pending then 0.0 else Price)
  }

  /** Statuses only move forward and a completed order never changes again;
      no order disappears. */
  ghost predicate Advanced(before: map<int, Order>, after: map<int, Order>)
  {
    forall k :: k in before ==>
      && k in after
      && Rank(before[k].status) <= Rank(after[k].status)
      && (before[k].status == Completed ==> after[k] == before[k])
  }

  /** Moving one order to a later status is an advance of the whole table. */
  lemma AdvancedByStep(m: map<int, Order>, k: int, o: Order)
    requires k in m && Rank(m[k].status) < Rank(o.status)
    ensures Advanced(m, m[k := o])
  {
  }

  /** What order `k` contributes to the earnings: its price once completed. */
  function Earned(m: map<int, Order>, k: int): real
  {
    if k in m && m[k].status == Completed then m[k].price else 0.0
  }

  /** Sum of the prices of the completed orders whose ids lie in [lo, hi),
      accumulated in increasing id order. */
  function CompletedSum(m: map<int, Order>, lo: int, hi: int): real
    decreases hi - lo
  {
    if hi <= lo then 0.0 else CompletedSum(m, lo, hi - 1) + Earned(m, hi - 1)
  }

  /** The ids in [lo, hi) of completed orders. */
  ghost function CompletedIn(m: map<int, Order>, lo: int, hi: int): set<int>
  {
    set k | lo <= k < hi && k in m && m[k].status == Completed
  }

  /** Replacing (or inserting) one order changes the sum by exactly the change
      in that order's contribution, and not at all when its id is outside the range. */
  lemma {:induction false} CompletedSumUpdate(m: map<int, Order>, k: int, o: Order, lo: int, hi: int)
    ensures CompletedSum(m[k := o], lo, hi)
         == CompletedSum(m, lo, hi) + (if lo <= k < hi then Earned(m[k := o], k) - Earned(m, k) else 0.0)
    decreases hi - lo
  {
    if lo < hi {
      CompletedSumUpdate(m, k, o, lo, hi - 1);
    }
  }

  /** When every completed order carries the fixed fare, the sum is the fare
      times the number of completed orders in the range. */
  lemma {:induction false} CompletedSumCount(m: map<int, Order>, lo: int, hi: int)
    requires forall k :: k in m && m[k].status == Completed ==> m[k].price == Price
    ensures CompletedSum(m, lo, hi) == Price * (|CompletedIn(m, lo, hi)| as real)
    decreases hi - lo
  {
    if lo < hi {
      CompletedSumCount(m, lo, hi - 1);
      var prev := CompletedIn(m, lo, hi - 1);
      if hi - 1 in m && m[hi - 1].status == Completed {
        assert CompletedIn(m, lo, hi) == prev + {hi - 1};
        assert hi - 1 !in prev;
        assert |CompletedIn(m, lo, hi)| == |prev| + 1;
      } else {
        assert CompletedIn(m, lo, hi) == prev;
      }
    } else {
      assert CompletedIn(m, lo, hi) == {};
    }
  }
}
