/** The reducer: the effect of one decoded event on the two ledgers and the watermark, the
    replay of a whole stream, and the properties the reconciliation policy guarantees. */
module Reducer {

  import opened Options
  import opened Sums
  import opened Events
  import opened Ledger
  import opened Ltv

  /** Everything the engine keeps: the customer ledger, the order ledger and the latest event
      time seen so far (`None` before the first event). */
  datatype State = State(
    customers: map<string, Customer>,
    orders: map<string, Order>,
    latestDate: Option<Time>)

  const Initial: State := State(map[], map[], None)

  /** The watermark after seeing an event at `et`: the later of the two. */
  function Advance(latest: Option<Time>, et: Time): (r: Option<Time>)
    ensures r.Some? && r.value >= et
    ensures latest.Some? ==> r.value >= latest.value
    ensures r == Some(et) || r == latest
  {
    if latest.None? || et > latest.value then Some(et) else latest
  }

  function LookupOrder(orders: map<string, Order>, key: string): Option<Order>
  {
    if key in orders then Some(orders[key]) else None
  }

  /** A CUSTOMER event with the NEW verb: the one event that sets the profile. */
  predicate IsRegistration(e: Event)
  {
    e.CustomerEvent? && e.verb == NEW
  }

  /** The order reconciliation an event causes: one for an ORDER event whose amount parsed,
      none for any other event. */
  function Reconciliation(s: State, e: Event): Option<Reconciled>
  {
    match e
    case OrderEvent(verb, key, et, _, Some(amount)) =>
      Some(Reconcile(LookupOrder(s.orders, key), et, amount, verb == NEW))
    case _ => None
  }

  /** What the event adds to its customer's expenditures. */
  function Delta(s: State, e: Event): real
  {
    var r := Reconciliation(s, e);
    if r.Some? then r.value.delta else 0.0
  }

  /** The effect of one event. Every event advances the watermark; every recognised event
      creates or revisits its customer; a registration overwrites the profile; an ORDER with
      a parsed amount is reconciled and its delta is added to the customer's expenditures. */
  function Step(s: State, e: Event): (r: State)
    ensures r.latestDate == Advance(s.latestDate, e.eventTime)
    ensures e.InvolvedCustomer().None? ==> r.customers == s.customers && r.orders == s.orders
    ensures e.InvolvedCustomer().Some? ==> r.customers.Keys == s.customers.Keys + {e.InvolvedCustomer().value}
    ensures e.OrderEvent? && e.totalAmount.Some? ==> r.orders.Keys == s.orders.Keys + {e.key}
    ensures !(e.OrderEvent? && e.totalAmount.Some?) ==> r.orders == s.orders
  {
    var latest := Advance(s.latestDate, e.eventTime);
    match e
    case CustomerEvent(verb, key, et, lastName, adrCity, adrState) =>
      var cs := GetOrCreate(s.customers, key, et);
      if verb == NEW then
        State(cs[key := Register(cs[key], et, lastName, adrCity, adrState)], s.orders, latest)
      else
        State(cs, s.orders, latest)
    case OrderEvent(_, key, et, customerId, _) =>
      var cs := GetOrCreate(s.customers, customerId, et);
      var r := Reconciliation(s, e);
      if r.Some? then
        var user := cs[customerId];
        State(cs[customerId := user.(expenditures := user.expenditures + r.value.delta)],
              s.orders[key := r.value.order], latest)
      else
        State(cs, s.orders, latest)
    case SiteVisitEvent(_, _, et, customerId) =>
      State(GetOrCreate(s.customers, customerId, et), s.orders, latest)
    case ImageEvent(_, _, et, customerId) =>
      State(GetOrCreate(s.customers, customerId, et), s.orders, latest)
    case OtherEvent(_, _, _) =>
      s.(latestDate := latest)
  }

  /** The ledgers an event produces do not depend on the watermark. */
  lemma StepLedgersIgnoreWatermark(s: State, e: Event, latest: Option<Time>)
    ensures Step(s.(latestDate := latest), e).customers == Step(s, e).customers
    ensures Step(s.(latestDate := latest), e).orders == Step(s, e).orders
  {
  }

  // ---------------------------------------------------------------------------------------
  // Conservation of money between the two ledgers

  function Expenditures(cs: map<string, Customer>): (m: map<string, real>)
    ensures m.Keys == cs.Keys
  {
    map id | id in cs :: cs[id].expenditures
  }

  function Prices(orders: map<string, Order>): (m: map<string, real>)
    ensures m.Keys == orders.Keys
  {
    map key | key in orders :: orders[key].price
  }

  /** The money spent by all customers is the money recorded in all orders. */
  ghost predicate Conserved(s: State)
  {
    Total(Expenditures(s.customers)) == Total(Prices(s.orders))
  }

  /** The state invariant: each customer is filed under its own id, the ledgers agree on the
      money, and a watermark exists as soon as some customer does. */
  ghost predicate WellFormed(s: State)
  {
    && Keyed(s.customers)
    && Conserved(s)
    && (s.customers != map[] ==> s.latestDate.Some?)
  }

  lemma ExpendituresUpdate(cs: map<string, Customer>, id: string, c: Customer)
    ensures Expenditures(cs[id := c]) == Expenditures(cs)[id := c.expenditures]
  {
  }

  lemma PricesUpdate(orders: map<string, Order>, key: string, o: Order)
    ensures Prices(orders[key := o]) == Prices(orders)[key := o.price]
  {
  }

  /** Creating or revisiting a customer moves no money. */
  lemma GetOrCreateConserves(cs: map<string, Customer>, id: string, et: Time)
    ensures Total(Expenditures(GetOrCreate(cs, id, et))) == Total(Expenditures(cs))
  {
    var r := GetOrCreate(cs, id, et);
    ExpendituresUpdate(cs, id, r[id]);
    assert Expenditures(r) == Expenditures(cs)[id := r[id].expenditures];
    TotalUpdate(Expenditures(cs), id, r[id].expenditures);
  }

  /** An ORDER with a parsed amount adds the same money to its customer as to its order. */
  lemma ReconciliationConserves(s: State, e: Event)
    requires Conserved(s) && Reconciliation(s, e).Some?
    ensures Conserved(Step(s, e))
  {
    var cs := GetOrCreate(s.customers, e.customerId, e.eventTime);
    GetOrCreateConserves(s.customers, e.customerId, e.eventTime);
    var r := Reconciliation(s, e).value;
    var user := cs[e.customerId];
    var user' := user.(expenditures := user.expenditures + r.delta);
    var s' := Step(s, e);
    assert s'.customers == cs[e.customerId := user'];
    assert s'.orders == s.orders[e.key := r.order];
    ExpendituresUpdate(cs, e.customerId, user');
    TotalUpdate(Expenditures(cs), e.customerId, user'.expenditures);
    PricesUpdate(s.orders, e.key, r.order);
    TotalUpdate(Prices(s.orders), e.key, r.order.price);
    assert PriceOf(LookupOrder(s.orders, e.key)) == if e.key in s.orders then Prices(s.orders)[e.key] else 0.0;
  }

  /** Every event adds to the customers' expenditures exactly what it adds to the orders'
      prices, so the two totals stay equal. */
  lemma StepConserves(s: State, e: Event)
    requires Conserved(s)
    ensures Conserved(Step(s, e))
  {
    if Reconciliation(s, e).Some? {
      ReconciliationConserves(s, e);
    } else if !e.OtherEvent? {
      var id := e.InvolvedCustomer().value;
      var cs := GetOrCreate(s.customers, id, e.eventTime);
      GetOrCreateConserves(s.customers, id, e.eventTime);
      var s' := Step(s, e);
      assert s'.orders == s.orders;
      if IsRegistration(e) {
        ExpendituresUpdate(cs, id, s'.customers[id]);
        assert Expenditures(s'.customers) == Expenditures(cs);
      } else {
        assert s'.customers == cs;
      }
    }
  }

  /** Every event keeps the state invariant. */
  lemma StepWellFormed(s: State, e: Event)
    requires WellFormed(s)
    ensures WellFormed(Step(s, e))
  {
    StepConserves(s, e);
  }

  // ---------------------------------------------------------------------------------------
  // The effect of one event

  /** The watermark becomes the later of itself and the event time, so it never decreases;
      an event of an unrecognised type changes nothing else. */
  lemma StepAdvancesWatermark(s: State, e: Event)
    ensures Step(s, e).latestDate == Advance(s.latestDate, e.eventTime)
    ensures s.latestDate.Some? ==> Step(s, e).latestDate.value >= s.latestDate.value
    ensures e.OtherEvent? ==> Step(s, e) == s.(latestDate := Advance(s.latestDate, e.eventTime))
  {
  }

  /** After any recognised event its customer exists: created with one visit if it was
      unknown, one visit more if it was known. No other customer is touched. */
  lemma StepTouchesCustomer(s: State, e: Event)
    requires e.InvolvedCustomer().Some?
    ensures var id := e.InvolvedCustomer().value;
            var cs := Step(s, e).customers;
            && cs.Keys == s.customers.Keys + {id}
            && cs[id].visits == (if id in s.customers then s.customers[id].visits + 1 else 1)
            && forall other :: other in s.customers && other != id ==> cs[other] == s.customers[other]
  {
  }

  /** A customer first referenced by an event starts at that event's time, with one visit,
      no ltv, and only the money of that event; it has a profile only if the event is its
      registration. */
  lemma StepCreatesCustomer(s: State, e: Event)
    requires e.InvolvedCustomer().Some? && e.InvolvedCustomer().value !in s.customers
    ensures var c := Step(s, e).customers[e.InvolvedCustomer().value];
            && c.customerId == e.InvolvedCustomer().value
            && c.startDate == e.eventTime && c.visits == 1 && c.ltv == 0.0
            && c.expenditures == Delta(s, e)
            && (IsRegistration(e) ==>
                  e.CustomerEvent?
                  && c == Register(NewCustomer(e.key, e.eventTime), e.eventTime, e.lastName, e.adrCity, e.adrState))
            && (!IsRegistration(e) ==> c.lastName.None? && c.adrCity.None? && c.adrState.None?)
  {
  }

  /** A known customer gains one visit and the event's money and nothing else, unless the
      event is its registration, which also sets start date and profile. */
  lemma StepRevisitsCustomer(s: State, e: Event)
    requires e.InvolvedCustomer().Some? && e.InvolvedCustomer().value in s.customers
    ensures var id := e.InvolvedCustomer().value;
            var old_ := s.customers[id];
            var visited := old_.(visits := old_.visits + 1, expenditures := old_.expenditures + Delta(s, e));
            var c := Step(s, e).customers[id];
            && (!IsRegistration(e) ==> c == visited)
            && (IsRegistration(e) ==> c == Register(visited, e.eventTime, e.lastName, e.adrCity, e.adrState))
  {
  }

  /** Only a registration changes a customer's start date or profile fields. */
  lemma StepOnlyRegistrationSetsProfile(s: State, e: Event, id: string)
    requires id in s.customers
    requires !(IsRegistration(e) && e.key == id)
    ensures var c, c' := s.customers[id], Step(s, e).customers[id];
            c'.startDate == c.startDate && c'.lastName == c.lastName
            && c'.adrCity == c.adrCity && c'.adrState == c.adrState
  {
  }

  /** The money part of a customer after an event: what it had before (nothing if new) plus
      the event's delta. */
  function SpentBefore(s: State, id: string): real
  {
    if id in s.customers then s.customers[id].expenditures else 0.0
  }

  /** An ORDER for an unseen order key records the order at the event's time and amount and
      adds the full amount to the customer. */
  lemma StepOrderInserts(s: State, e: Event)
    requires e.OrderEvent? && e.totalAmount.Some? && e.key !in s.orders
    ensures Step(s, e).orders == s.orders[e.key := Order(e.eventTime, e.totalAmount.value)]
    ensures Step(s, e).customers[e.customerId].expenditures
         == SpentBefore(s, e.customerId) + e.totalAmount.value
  {
  }

  /** A non-NEW ORDER strictly later than the recorded one replaces its time and price and
      adds the price difference to the customer. */
  lemma StepOrderUpdates(s: State, e: Event)
    requires e.OrderEvent? && e.totalAmount.Some? && e.key in s.orders
    requires e.verb != NEW && e.eventTime > s.orders[e.key].orderDate
    ensures Step(s, e).orders == s.orders[e.key := Order(e.eventTime, e.totalAmount.value)]
    ensures Step(s, e).customers[e.customerId].expenditures
         == SpentBefore(s, e.customerId) + (e.totalAmount.value - s.orders[e.key].price)
  {
  }

  /** Any other ORDER for a recorded key (not later, or a late NEW) is discarded: the order
      ledger is unchanged and the customer's money is unchanged. */
  lemma StepOrderDiscards(s: State, e: Event)
    requires e.OrderEvent? && e.totalAmount.Some? && e.key in s.orders
    requires e.verb == NEW || e.eventTime <= s.orders[e.key].orderDate
    ensures Step(s, e).orders == s.orders
    ensures Step(s, e).customers[e.customerId].expenditures == SpentBefore(s, e.customerId)
  {
  }

  /** An ORDER whose amount did not parse still counts as a visit but touches no money. */
  lemma StepMalformedAmount(s: State, e: Event)
    requires e.OrderEvent? && e.totalAmount.None?
    ensures Step(s, e).orders == s.orders
    ensures Step(s, e).customers[e.customerId].expenditures == SpentBefore(s, e.customerId)
    ensures Step(s, e).customers == GetOrCreate(s.customers, e.customerId, e.eventTime)
  {
  }

  /** Ingesting an ORDER event a second time leaves both the order ledger and the customer's
      money as the first time left them. */
  lemma StepOrderReplayIsNoOp(s: State, e: Event)
    requires e.OrderEvent?
    ensures var s1 := Step(s, e);
            var s2 := Step(s1, e);
            s2.orders == s1.orders
            && s2.customers[e.customerId].expenditures == s1.customers[e.customerId].expenditures
  {
  }

  // ---------------------------------------------------------------------------------------
  // A whole stream

  /** The state after ingesting `events` in arrival order from an empty engine. */
  function Replay(events: seq<Event>): State
    decreases |events|
  {
    if events == [] then Initial
    else Step(Replay(events[..|events| - 1]), events[|events| - 1])
  }

  /** How many of `events` refer to customer `id`. */
  function MentionCount(events: seq<Event>, id: string): nat
    decreases |events|
  {
    if events == [] then 0
    else MentionCount(events[..|events| - 1], id) + (if events[|events| - 1].Mentions(id) then 1 else 0)
  }

  /** The latest event time in a non-empty stream. */
  function MaxTime(events: seq<Event>): Time
    requires events != []
    decreases |events|
  {
    var last := events[|events| - 1].eventTime;
    if |events| == 1 then last
    else
      var rest := MaxTime(events[..|events| - 1]);
      if last > rest then last else rest
  }

  /** A customer exists exactly when some event referred to it, whatever the arrival order,
      and its visits count every such event, the one that created it included. */
  lemma {:induction false} ReplayCountsVisits(events: seq<Event>, id: string)
    ensures id in Replay(events).customers <==> MentionCount(events, id) > 0
    ensures id in Replay(events).customers ==> Replay(events).customers[id].visits == MentionCount(events, id)
    decreases |events|
  {
    if events != [] {
      var prefix, e := events[..|events| - 1], events[|events| - 1];
      ReplayCountsVisits(prefix, id);
      if e.InvolvedCustomer().Some? {
        StepTouchesCustomer(Replay(prefix), e);
      }
    }
  }

  /** The watermark is the latest event time of the stream, and absent only before the first
      event. */
  lemma {:induction false} ReplayWatermarkIsMax(events: seq<Event>)
    ensures events == [] <==> Replay(events).latestDate.None?
    ensures events != [] ==> Replay(events).latestDate == Some(MaxTime(events))
    decreases |events|
  {
    if events != [] {
      var prefix := events[..|events| - 1];
      ReplayWatermarkIsMax(prefix);
      StepAdvancesWatermark(Replay(prefix), events[|events| - 1]);
    }
  }

  /** Whatever the stream, the money spent by all customers equals the money in all orders
      and the state invariant holds. */
  lemma {:induction false} ReplayWellFormed(events: seq<Event>)
    ensures WellFormed(Replay(events))
    decreases |events|
  {
    if events == [] {
      assert Expenditures(map[]) == map[] && Prices(map[]) == map[];
    } else {
      var prefix := events[..|events| - 1];
      ReplayWellFormed(prefix);
      StepWellFormed(Replay(prefix), events[|events| - 1]);
    }
  }

  // ---------------------------------------------------------------------------------------
  // Two streams worked through

  const Hour: int := 3_600_000

  /** Registration, a first order of 12.34 a day later, and an update to 17.34 an hour after
      that: the customer has spent 17.34 over three visits. */
  lemma ScenarioOrderThenUpdate(t0: Time)
    ensures var events := [
              CustomerEvent(NEW, "A", t0, "Smith", "Middletown", "AK"),
              OrderEvent(NEW, "o1", t0 + MillisPerDay, "A", Some(12.34)),
              OrderEvent("UPDATE", "o1", t0 + MillisPerDay + Hour, "A", Some(17.34))];
            var s := Replay(events);
            && s.customers["A"].expenditures == 17.34
            && s.customers["A"].visits == 3
            && s.orders["o1"] == Order(t0 + MillisPerDay + Hour, 17.34)
  {
    var events := [
      CustomerEvent(NEW, "A", t0, "Smith", "Middletown", "AK"),
      OrderEvent(NEW, "o1", t0 + MillisPerDay, "A", Some(12.34)),
      OrderEvent("UPDATE", "o1", t0 + MillisPerDay + Hour, "A", Some(17.34))];
    assert events[..2][..1] == [events[0]] && [events[0]][..0] == [];
    var s1 := Step(Initial, events[0]);
    assert Replay(events[..1]) == s1;
    var s2 := Step(s1, events[1]);
    assert Replay(events[..2]) == s2;
    assert s1.customers["A"].visits == 1 && "o1" !in s1.orders;
    assert s2.customers["A"].expenditures == 12.34 && s2.orders["o1"] == Order(t0 + MillisPerDay, 12.34);
    StepOrderUpdates(s2, events[2]);
  }

  /** An update timed two days after the start arrives before the NEW timed one day after:
      the NEW is stale, so the order keeps 17.34 and the customer has spent 17.34. */
  lemma ScenarioLateNew(t0: Time)
    ensures var events := [
              OrderEvent("UPDATE", "o1", t0 + 2 * MillisPerDay, "A", Some(17.34)),
              OrderEvent(NEW, "o1", t0 + MillisPerDay, "A", Some(12.34))];
            var s := Replay(events);
            && s.orders["o1"] == Order(t0 + 2 * MillisPerDay, 17.34)
            && s.customers["A"].expenditures == 17.34
            && s.customers["A"].visits == 2
            && s.customers["A"].startDate == t0 + 2 * MillisPerDay
  {
    var events := [
      OrderEvent("UPDATE", "o1", t0 + 2 * MillisPerDay, "A", Some(17.34)),
      OrderEvent(NEW, "o1", t0 + MillisPerDay, "A", Some(12.34))];
    assert events[..1] == [events[0]] && [events[0]][..0] == [];
    var s1 := Step(Initial, events[0]);
    assert Replay(events[..1]) == s1;
    assert s1.customers["A"].expenditures == 17.34 && s1.orders["o1"] == Order(t0 + 2 * MillisPerDay, 17.34);
    StepOrderDiscards(s1, events[1]);
  }
}
