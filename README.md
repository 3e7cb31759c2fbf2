# Shutterfly event-reduction engine, modelled in Dafny

This project models the core of the Shutterfly customer-analytics engine (`Shutterfly.java`).
The engine ingests a stream of business events that may arrive out of order: customer
registrations, site visits, image uploads, and orders with their updates. From them it keeps
two ledgers:

- a **customer ledger**: customer id to aggregate (visits, expenditures, start date, profile,
  cached lifetime value);
- an **order ledger**: order id to the latest reconciled `(orderDate, price)`.

It also keeps a **watermark**, the latest event time seen so far. On demand it ranks the
customers by a **lifetime value** (LTV) computed against the watermark. It returns the top `k`
using a min-heap bounded to `k` entries.

The model is split into modules that follow those components:

- `Options`: the optional value used where Java has a nullable reference.
- `Events`: the already-decoded event, one variant per `type` (CUSTOMER, ORDER, SITE_VISIT,
  IMAGE, and any other type). Event times are integer milliseconds. An ORDER amount is
  `Option<real>`, where `None` means the amount text did not parse.
- `Ledger`: the `Customer` and `Order` records and the per-entity rules.
  - `GetOrCreate`: create the customer, or count one more visit.
  - `Register`: CUSTOMER/NEW overwrites the start date and profile.
  - `Reconcile`: last writer wins by event time, per order key.
- `Ltv`: the age in days and the LTV formula.
- `Reducer`: the effect of one event on the whole state (`Step`), replay of a stream
  (`Replay`), and the properties of the reconciliation policy. These properties include the
  conservation of money between the two ledgers, visit counting and the watermark.
- `Sums`: the sum of a map's values. It is used to state conservation.
- `Engine`: the class `Shutterfly`.
  - Its fields `customerProfile`, `orderHistory` and `latestDate` are updated in place by
    `Ingest`, which is proved equal to `Reducer.Step`.
  - `TopXSimpleLTVCustomers` refreshes every customer's LTV and selects the top `k` with a
    bounded min-heap held as a sequence, with push and evict-minimum.

Amounts and LTV are `real`, so arithmetic is exact. Visits are unbounded naturals.

## Model

| member | source | states |
|---|---|---|
| `Events.Event.InvolvedCustomer` | Shutterfly.java:71-109 | The customer an event refers to is the key of a CUSTOMER event and the `customer_id` of ORDER, SITE_VISIT and IMAGE events; an unrecognised type refers to nobody. |
| `Ledger.NewCustomer` | Shutterfly.java:30-117 | A customer first seen at time `et` has one visit, zero expenditures, zero ltv, no profile, and start date `et`. |
| `Ledger.GetOrCreate` | Shutterfly.java:114-122 | After a reference the customer exists. An unknown customer is created new. A known customer gets exactly one more visit and no other change. No other customer changes. |
| `Ledger.Register` | Shutterfly.java:95-101 | A CUSTOMER/NEW sets the start date to the event time and sets last name, city and state. It keeps visits, expenditures and ltv. |
| `Ledger.Reconcile` | Shutterfly.java:143-164 | An unseen order is recorded as `(et, amount)`. A recorded one is replaced only by a non-NEW event strictly later than the stored time. Anything else returns the stored record with delta 0. The stored time never decreases. The delta always equals the new price minus the old price, the old price counted as 0 for an unseen order. |
| `Ledger.ReconcileReplayIsNoOp` | Shutterfly.java:148-159 | Reconciling the same event again against the record it produced returns that record with delta 0. |
| `Ledger.ReconcileArrivalOrderIndependent` | Shutterfly.java:143-164 | NEW at `t1` then UPDATE at `t2 > t1`, and the reverse arrival order, both end with `Order(t2, b)` and a total delta of `b`. |
| `Ledger.ReconcileAsWritten` | Shutterfly.java:143-164 | Reconciliation with the verb test at line 148 as written, a reference comparison that is always true. An unseen order is recorded as `(et, amount)`. Any strictly later event replaces the record, whatever its verb. An event that is not strictly later returns the stored record with delta 0. The delta always equals the price change. |
| `Ledger.AsWrittenAppliesLateNew` | Shutterfly.java:146-148 | For a NEW event later than the stored record with a different amount, the as-written rule overwrites the price. The intended rule discards it with delta 0. |
| `Ltv.Distance` | Shutterfly.java:187 | The absolute difference of two instants. |
| `Ltv.AgeDays` | Shutterfly.java:187-190 | The age is at least 1 day. It is the floor of the absolute time difference in whole days, plus one: (d−1)·86400000 ≤ distance(now, start) < d·86400000. |
| `Ltv.LifetimeValue` | Shutterfly.java:190-192 | `ltv · ageDays = 7·52·20 · expenditures`. The ltv is non-negative when expenditures are non-negative. |
| `Ltv.WithLtv` | Shutterfly.java:186-194 | Updating the ltv stores `LifetimeValue` at the given date and changes no other field. |
| `Ltv.LifetimeValueLinear` | Shutterfly.java:190-192 | For a fixed age, ltv is linear in expenditures: `ltv(a·x + y) = a·ltv(x) + ltv(y)`. |
| `Ltv.LifetimeValueMonotone` | Shutterfly.java:190-192 | For a fixed age, spending more never lowers the ltv. |
| `Reducer.Step` | Shutterfly.java:77-173 | One decoded event: the watermark becomes `Advance` of the old one. An unrecognised type leaves both ledgers unchanged. Any other event adds exactly its customer to the customer key set. Only an ORDER with a parsed amount touches the order ledger, and it adds exactly its key. The full meaning is given by the `Step*` and `Replay*` lemmas below. |
| `Reducer.Advance` | Shutterfly.java:77-79 | The new watermark is the event time or the old watermark, is at least both, and is always present afterwards. |
| `Reducer.StepAdvancesWatermark` | Shutterfly.java:77-79 | Every event sets the watermark to the later of itself and the event time, so it never decreases. An unrecognised type changes nothing else. |
| `Reducer.StepTouchesCustomer` | Shutterfly.java:85-122 | After any recognised event its customer exists. The customer key set grows by exactly that id. Its visits become old + 1, or 1 if it was new. Every other customer is unchanged. |
| `Reducer.StepCreatesCustomer` | Shutterfly.java:88-117 | A customer created by an event has start date = event time, one visit, ltv 0, and expenditures equal to that event's delta. If the event is its registration, the customer is exactly a new customer with `Register` applied: the event's last name, city and state and start date = event time. Otherwise its last name, city and state are all absent. |
| `Reducer.StepRevisitsCustomer` | Shutterfly.java:119-122 | A known customer gains one visit and the event's delta, and nothing else. A registration additionally applies `Register`. |
| `Reducer.StepOnlyRegistrationSetsProfile` | Shutterfly.java:95-101 | An event that is not a CUSTOMER/NEW for this id leaves the customer's start date, last name, city and state unchanged. This covers CUSTOMER/UPDATE. |
| `Reducer.StepOrderInserts` | Shutterfly.java:161-167 | An ORDER for an unseen key stores `Order(et, amount)` and adds the full amount to the customer's expenditures. |
| `Reducer.StepOrderUpdates` | Shutterfly.java:148-155 | A non-NEW ORDER strictly later than the stored record replaces its time and price. It adds new − old price to the customer. |
| `Reducer.StepOrderDiscards` | Shutterfly.java:156-159 | A stale or equal-time ORDER, or a late NEW, for a recorded key leaves the order ledger unchanged and adds nothing to the customer. |
| `Reducer.StepMalformedAmount` | Shutterfly.java:133-139 | An ORDER whose amount did not parse leaves the order ledger and the expenditures unchanged, but still creates or revisits the customer. |
| `Reducer.StepOrderReplayIsNoOp` | Shutterfly.java:143-167 | Ingesting the same ORDER event twice leaves the order ledger and the customer's expenditures as the first ingestion left them. |
| `Reducer.GetOrCreateConserves` | Shutterfly.java:114-122 | Creating or revisiting a customer leaves the total of all expenditures unchanged. |
| `Reducer.ReconciliationConserves` | Shutterfly.java:161-167 | An ORDER with a parsed amount adds to the total expenditures exactly what it adds to the total order prices. |
| `Reducer.StepConserves` | Shutterfly.java:143-167 | Every event keeps the sum of all customers' expenditures equal to the sum of all stored order prices. |
| `Reducer.StepWellFormed` | Shutterfly.java:77-173 | Every event keeps the state invariant. Each customer is filed under its own id. Money is conserved. A watermark exists once any customer does. |
| `Reducer.ReplayCountsVisits` | Shutterfly.java:85-122 | After any stream, a customer exists iff some event referred to it. Its visits equal the number of such events, in any arrival order, including the one that created it. |
| `Reducer.ReplayWatermarkIsMax` | Shutterfly.java:77-79 | After a stream the watermark is the greatest event time in it. It is absent only for the empty stream. |
| `Reducer.ReplayWellFormed` | Shutterfly.java:143-167 | For every stream the state invariant holds. Its conservation conjunct says total expenditures equal total order prices. |
| `Reducer.ScenarioOrderThenUpdate` | Shutterfly.java:143-167 | Registration, ORDER/NEW 12.34 a day later, then UPDATE 17.34 an hour after that: expenditures 17.34, visits 3, stored order `(t0+1d+1h, 17.34)`. |
| `Reducer.ScenarioLateNew` | Shutterfly.java:143-159 | UPDATE 17.34 at `t0+2d` arriving before NEW 12.34 at `t0+1d`: the order keeps 17.34, expenditures 17.34, visits 2. |
| `Engine.RemoveAt` | Shutterfly.java:226 | Removing the polled element leaves one element fewer: the elements before it stay at their positions, and the ones after it move down by one. |
| `Engine.MinIndex` | Shutterfly.java:226 | Returns the position of an element of least ltv: the one the min-heap's `poll` removes. |
| `Engine.PushKeepsSelecting` | Shutterfly.java:222-225 | Pushing a customer onto a heap below capacity keeps the top-K loop invariant. |
| `Engine.EvictedBelowKept` | Shutterfly.java:225-227 | After pushing onto a full heap and evicting a minimum, no customer left out has a higher ltv than any customer kept. |
| `Engine.PushEvictKeepsSelecting` | Shutterfly.java:222-227 | Push followed by evict-minimum keeps the top-K loop invariant. |
| `Engine.SelectStep` | Shutterfly.java:221-227 | One loop iteration: refreshing customer `id`, pushing it and evicting a minimum when over `k` refreshes exactly one more ledger entry and keeps the top-K loop invariant. |
| `Engine.Push` | Shutterfly.java:221-227 | `updateLTV`, `add` and the conditional `poll` for one customer. The ledger gains that customer's refreshed ltv, and the heap keeps the invariant: min(k, seen) distinct customers, with every evicted customer no greater than every kept one. |
| `Engine.PushAll` | Shutterfly.java:219-228 | After the loop every customer is refreshed, and the heap satisfies the invariant for the whole ledger. |
| `Engine.SelectingDone` | Shutterfly.java:230 | Once every customer has been refreshed and pushed, the heap is a top-K selection of the refreshed ledger. |
| `Engine.SelectTopK` | Shutterfly.java:202-230 | Returns every customer with its ltv refreshed, plus `min(k, N)` distinct customers of that map (none when `k <= 0`). Every customer left out has ltv no greater than every customer returned. |
| `Engine.Shutterfly.constructor` | Shutterfly.java:49-59 | The engine starts with empty ledgers, no watermark, and the invariant holding. |
| `Engine.Shutterfly.Ingest` | Shutterfly.java:64-181 | Applying an event updates the fields to exactly `Reducer.Step` of the old state, keeps the invariant (conservation included), and reports success. |
| `Engine.Shutterfly.IngestCustomer` | Shutterfly.java:82-103 | The CUSTOMER branch leaves the customer ledger as `Step` prescribes. |
| `Engine.Shutterfly.IngestOrder` | Shutterfly.java:105-170 | The ORDER branch leaves both ledgers as `Step` prescribes. |
| `Engine.Shutterfly.VisitCustomer` | Shutterfly.java:114-122 | Creates or revisits one customer, exactly as `GetOrCreate`. |
| `Engine.Shutterfly.TopXSimpleLTVCustomers` | Shutterfly.java:202-231 | Refreshes every customer's stored ltv at the watermark and leaves the order ledger and watermark alone. Returns a top-K selection of the refreshed customers. |

## Behaviour of Shutterfly.java worth noting

- An unrecognised event type still advances the watermark. The watermark update runs before
  the type switch (Shutterfly.java:77-79), and the model does the same.
- A malformed ORDER amount is not reported to the caller. `Ingest` returns true, and the
  event still counts as a visit (Shutterfly.java:136-138, 175). The model does the same.
- Top-K returns the contents of the priority queue's internal array, not a sorted list
  (Shutterfly.java:230).

## Findings

| source | as written | input that shows it | evidently intended | confidence | as-written member | corrected member |
|---|---|---|---|---|---|---|
| Shutterfly.java:148 | `v != "NEW"` compares references, so it is true for every decoded verb. Any later event, a NEW included, replaces a recorded order. | A recorded order `(t, 15.34)`, then ORDER/NEW for the same key at `t + 1` with amount 12.34. As written the price becomes 12.34 with delta −3.00. | The value test `!v.equals("NEW")`, as in the CUSTOMER branch (line 95) and the comment at line 147. A NEW for a recorded key is discarded. | not executed; high that the reference test is always true for decoded strings | `Ledger.AsWrittenAppliesLateNew` | `Ledger.Reconcile` |

## Left out

- JSON decoding (`org.json`), the `SimpleDateFormat` timestamp parsing in UTC, and the parsing
  of "12.34 USD" amounts. These are foreign libraries and text formats. The model consumes
  typed events: the time is an integer of milliseconds, and the amount is `Option<real>`.
- Decode failures. A missing field or an unparsable timestamp raises `JSONException` or
  `ParseException`, and `Ingest` catches it and returns false (Shutterfly.java:177-180). A field
  of the wrong JSON type, such as a numeric `total_amount` (line 127) or a null `last_name`
  (line 98), makes its `(String)` cast throw `ClassCastException`. That exception is not
  caught and propagates out of `Ingest`. A null input string likewise escapes as a
  `NullPointerException`. In both uncaught cases the updates already made stay in place: the
  watermark (lines 77-79) and the customer's creation or visit (lines 85-92, 114-122). All of
  this belongs to decoding, which is outside the typed-event model.
- `Engine.Shutterfly.Ingest`: always returns true. Every typed event decodes by construction.
- IEEE double arithmetic on expenditures and ltv. `real` is exact, so rounding is not modelled.
- `Ledger.GetOrCreate`: does not model 32-bit wrap-around of `visits`. The counter is an
  unbounded `nat`. Overflow of the `long` time difference is not modelled either.
- The internals of `java.util.PriorityQueue`. The heap is a sequence with push and
  evict-minimum (`Engine.MinIndex` takes the first least element). Among equal ltv values Java
  may evict a different customer; `Engine.IsTopK` holds for either choice.
- `Engine.SelectTopK`: the returned sequence is in the order that push and evict-minimum
  leave it, not the internal array order of `java.util.PriorityQueue` that Java returns
  (Shutterfly.java:230). `Engine.IsTopK` states which customers are returned, not their order.
- Object identity. Java's top-K list holds the same `Customer` objects as the ledger. The
  model returns values equal to the ledger's entries.
- The `printStackTrace` calls (Shutterfly.java:137, 178) and the `main` demonstration driver
  with its console output (Shutterfly.java:234-256).
- The guard `diff >= 0` (Shutterfly.java:188) is true unless the difference is `Long.MIN_VALUE`,
  where `Math.abs` stays negative. That is a `long` overflow, which is left out above, so the
  guard is dropped.
