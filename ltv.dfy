/** The lifetime-value heuristic: weekly spend since the customer's start date, projected over
    52 weeks a year for 20 years. */
module Ltv {

  import opened Events
  import opened Ledger

  /** `24 * 60 * 60 * 1000`: milliseconds in a day. */
  const MillisPerDay: nat := 86_400_000

  /** Weeks per year times the 20-year horizon, times the 7 days of a week. */
  const Horizon: real := 7.0 * 52.0 * 20.0

  function Distance(a: Time, b: Time): (d: nat)
    ensures d == a - b || d == b - a
  {
    if a >= b then a - b else b - a
  }

  /** Whole days between the two instants, plus one: never zero, so a customer who started
      today has an age of one day. */
  function AgeDays(startDate: Time, currentDate: Time): (days: nat)
    ensures days >= 1
    ensures (days - 1) * MillisPerDay <= Distance(currentDate, startDate) < days * MillisPerDay
  {
    Distance(currentDate, startDate) / MillisPerDay + 1
  }

  /** The projected lifetime value of a customer who has spent `expenditures` between
      `startDate` and `currentDate`. */
  function LifetimeValue(expenditures: real, startDate: Time, currentDate: Time): (ltv: real)
    ensures ltv * AgeDays(startDate, currentDate) as real == Horizon * expenditures
    ensures expenditures >= 0.0 ==> ltv >= 0.0
  {
    var weekly := expenditures * 7.0 / AgeDays(startDate, currentDate) as real;
    52.0 * weekly * 20.0
  }

  /** The customer with its ltv recomputed at `currentDate`; nothing else changes. */
  function WithLtv(c: Customer, currentDate: Time): (r: Customer)
    ensures r.ltv == LifetimeValue(c.expenditures, c.startDate, currentDate)
    ensures r.(ltv := c.ltv) == c
  {
    c.(ltv := LifetimeValue(c.expenditures, c.startDate, currentDate))
  }

  /** For a fixed age the lifetime value is linear in the expenditures. */
  lemma LifetimeValueLinear(x: real, y: real, a: real, startDate: Time, currentDate: Time)
    ensures LifetimeValue(a * x + y, startDate, currentDate)
         == a * LifetimeValue(x, startDate, currentDate) + LifetimeValue(y, startDate, currentDate)
  {
  }

  /** For a fixed age, spending more never lowers the lifetime value. */
  lemma LifetimeValueMonotone(x: real, y: real, startDate: Time, currentDate: Time)
    requires x <= y
    ensures LifetimeValue(x, startDate, currentDate) <= LifetimeValue(y, startDate, currentDate)
  {
  }
}
