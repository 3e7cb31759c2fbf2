/** An already-decoded input event. The JSON text, the timestamp string and the amount string
    are decoded before an event reaches the reducer; here they arrive as typed fields. */
module Events {

  import opened Options

  /** An instant in milliseconds since the epoch, as `Date.getTime()` reports it. */
  type Time = int

  /** The verb that marks an authoritative creation (a registration or a first order). */
  const NEW: string := "NEW"

  /** One event, by its `type` field. `key` is the customer id for CUSTOMER, the order id for
      ORDER and an opaque event id otherwise. `totalAmount` is `None` when the amount text
      does not parse as a number. */
  datatype Event =
    | CustomerEvent(verb: string, key: string, eventTime: Time,
                    lastName: string, adrCity: string, adrState: string)
    | OrderEvent(verb: string, key: string, eventTime: Time,
                 customerId: string, totalAmount: Option<real>)
    | SiteVisitEvent(verb: string, key: string, eventTime: Time, customerId: string)
    | ImageEvent(verb: string, key: string, eventTime: Time, customerId: string)
    | OtherEvent(verb: string, key: string, eventTime: Time)
  {
    /** The customer an event is about: the key of a CUSTOMER event, the `customer_id` of
        ORDER, SITE_VISIT and IMAGE events, nobody for an unrecognised type. */
    function InvolvedCustomer(): (id: Option<string>)
      ensures id.None? <==> OtherEvent?
      ensures CustomerEvent? ==> id == Some(key)
      ensures (OrderEvent? || SiteVisitEvent? || ImageEvent?) ==> id == Some(customerId)
    {
      match this
      case CustomerEvent(_, key, _, _, _, _) => Some(key)
      case OrderEvent(_, _, _, customerId, _) => Some(customerId)
      case SiteVisitEvent(_, _, _, customerId) => Some(customerId)
      case ImageEvent(_, _, _, customerId) => Some(customerId)
      case OtherEvent(_, _, _) => None
    }

    /** Whether this event refers to customer `id`. */
    predicate Mentions(id: string)
    {
      InvolvedCustomer() == Some(id)
    }
  }
}
