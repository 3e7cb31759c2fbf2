/** The two ledgers: customer aggregates keyed by customer id, and order records keyed by order
    id, with the rules that create, touch, register and reconcile them. */
module Ledger {

  import opened Options
  import opened Events

  /** A customer aggregate. `ltv` is only refreshed by a top-K query. */
  datatype Customer = Customer(
    customerId: string,
    startDate: Time,
    expenditures: real,
    visits: nat,
    ltv: real,
    lastName: Option<string>,
    adrCity: Option<string>,
    adrState: Option<string>)

  /** The reconciled state of one order: the time of the latest applied event and its price. */
  datatype Order = Order(orderDate: Time, price: real)

  /** The outcome of reconciling one order event: the order record to store and the change to
      add to the customer's expenditures. */
  datatype Reconciled = Reconciled(order: Order, delta: real)

  /** A customer first seen at `et`: one visit, nothing spent, no profile yet. */
  function NewCustomer(id: string, et: Time): (c: Customer)
    ensures c.customerId == id && c.startDate == et
    ensures c.visits == 1 && c.expenditures == 0.0 && c.ltv == 0.0
    ensures c.lastName.None? && c.adrCity.None? && c.adrState.None?
  {
    Customer(id, et, 0.0, 1, 0.0, None, None, None)
  }

  /** Every customer filed under its own id. */
  predicate Keyed(cs: map<string, Customer>)
  {
    forall id :: id in cs ==> cs[id].customerId == id
  }

  /** Every event that refers to a customer either creates it or counts one more visit. */
  function GetOrCreate(cs: map<string, Customer>, id: string, et: Time): (r: map<string, Customer>)
    ensures r.Keys == cs.Keys + {id}
    ensures id !in cs ==> r[id] == NewCustomer(id, et)
    ensures id in cs ==> r[id].visits == cs[id].visits + 1
    ensures id in cs ==> r[id] == cs[id].(visits := r[id].visits)
    ensures forall other :: other in cs && other != id ==> r[other] == cs[other]
  {
    if id in cs then cs[id := cs[id].(visits := cs[id].visits + 1)]
    else cs[id := NewCustomer(id, et)]
  }

  /** A CUSTOMER/NEW event sets the true start date and the profile, whatever earlier events
      already created. Counters and the cached ltv are kept. */
  function Register(c: Customer, et: Time, lastName: string, adrCity: string, adrState: string): (r: Customer)
    ensures r.startDate == et
    ensures r.lastName == Some(lastName) && r.adrCity == Some(adrCity) && r.adrState == Some(adrState)
    ensures r.customerId == c.customerId && r.visits == c.visits
    ensures r.expenditures == c.expenditures && r.ltv == c.ltv
  {
    c.(startDate := et, lastName := Some(lastName), adrCity := Some(adrCity), adrState := Some(adrState))
  }

  /** The price an order currently counts for: nothing when it is not yet recorded. */
  function PriceOf(prev: Option<Order>): real
  {
    if prev.Some? then prev.value.price else 0.0
  }

  /** Last writer wins by event time. An unseen order is recorded with its full amount; a
      recorded one is replaced only by a non-NEW event strictly later than the stored time, and
      the delta is the price change; anything else is discarded with a zero delta. The delta
      always equals the change in the order's price, so the money the customer ledger gains
      is the money the order ledger gains. */
  function Reconcile(prev: Option<Order>, et: Time, amount: real, isNew: bool): (r: Reconciled)
    ensures r.delta == r.order.price - PriceOf(prev)
    ensures prev.None? ==> r.order == Order(et, amount)
    ensures prev.Some? ==> r.order.orderDate >= prev.value.orderDate
    ensures prev.Some? && !isNew && et > prev.value.orderDate ==> r.order == Order(et, amount)
    ensures prev.Some? && (isNew || et <= prev.value.orderDate) ==> r == Reconciled(prev.value, 0.0)
  {
    match prev
    case None => Reconciled(Order(et, amount), amount)
    case Some(stored) =>
      // Shutterfly.java:148 writes this test as `v != "NEW"`, a reference comparison that holds
      // for every decoded verb; the model uses the value comparison its comments describe.
      if !isNew && et > stored.orderDate then
        Reconciled(Order(et, amount), amount - stored.price)
      else
        Reconciled(stored, 0.0)
  }

  /** Reconciling an event that has already been applied changes nothing and adds nothing. */
  lemma ReconcileReplayIsNoOp(prev: Option<Order>, et: Time, amount: real, isNew: bool)
    ensures var r := Reconcile(prev, et, amount, isNew);
            Reconcile(Some(r.order), et, amount, isNew) == Reconciled(r.order, 0.0)
  {
  }

  /** A NEW at `t1` and a later UPDATE at `t2` give the same record and the same total delta
      whichever arrives first. */
  lemma ReconcileArrivalOrderIndependent(t1: Time, a: real, t2: Time, b: real)
    requires t1 < t2
    ensures var n1 := Reconcile(None, t1, a, true);
            var u2 := Reconcile(Some(n1.order), t2, b, false);
            var u1 := Reconcile(None, t2, b, false);
            var n2 := Reconcile(Some(u1.order), t1, a, true);
            u2.order == n2.order == Order(t2, b) && n1.delta + u2.delta == u1.delta + n2.delta == b
  {
  }

  /** Order reconciliation exactly as Shutterfly.java:143-164 writes it: the verb test at line
      148 is a reference comparison between a decoded string and a literal, which is never
      equal, so the verb plays no part. */
  function ReconcileAsWritten(prev: Option<Order>, et: Time, amount: real): (r: Reconciled)
    ensures r.delta == r.order.price - PriceOf(prev)
    ensures prev.None? ==> r.order == Order(et, amount)
    ensures prev.Some? && et > prev.value.orderDate ==> r.order == Order(et, amount)
    ensures prev.Some? && et <= prev.value.orderDate ==> r == Reconciled(prev.value, 0.0)
  {
    match prev
    case None => Reconciled(Order(et, amount), amount)
    case Some(stored) =>
      if et > stored.orderDate then Reconciled(Order(et, amount), amount - stored.price)
      else Reconciled(stored, 0.0)
  }

  /** A NEW event for a recorded order, timed after the stored update, overwrites the order as
      written, where the intended rule discards it. */
  lemma AsWrittenAppliesLateNew(stored: Order, et: Time, amount: real)
    requires et > stored.orderDate && amount != stored.price
    ensures ReconcileAsWritten(Some(stored), et, amount).order.price == amount
    ensures Reconcile(Some(stored), et, amount, true) == Reconciled(stored, 0.0)
    ensures ReconcileAsWritten(Some(stored), et, amount) != Reconcile(Some(stored), et, amount, true)
  {
  }
}
