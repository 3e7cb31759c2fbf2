/** The engine object: the two ledgers and the watermark as fields updated in place by
    `Ingest`, and the bounded min-heap query `TopXSimpleLTVCustomers`. */
module Engine {

  import opened Options
  import opened Events
  import opened Ledger
  import opened Ltv
  import opened Reducer

  function Min(a: int, b: int): int
  {
    if a <= b then a else b
  }

  /** The customer ids held in a sequence of customers. */
  function Ids(cs: seq<Customer>): set<string>
  {
    set i | 0 <= i < |cs| :: cs[i].customerId
  }

  /** Every customer with its ltv recomputed at `now`. */
  function Refreshed(cs: map<string, Customer>, now: Time): (r: map<string, Customer>)
    ensures r.Keys == cs.Keys
  {
    map id | id in cs :: WithLtv(cs[id], now)
  }

  /** `top` is a top-k selection of `cs` by ltv: min(k, N) distinct customers taken from `cs`
      (none when k is not positive), and no customer left out has a higher ltv than any
      customer taken. The order of `top` is unspecified. */
  ghost predicate IsTopK(cs: map<string, Customer>, top: seq<Customer>, k: int)
  {
    && |top| == (if k <= 0 then 0 else Min(k, |cs|))
    && (forall i :: 0 <= i < |top| ==> top[i].customerId in cs && cs[top[i].customerId] == top[i])
    && (forall i, j :: 0 <= i < j < |top| ==> top[i].customerId != top[j].customerId)
    && (forall id, i :: id in cs && id !in Ids(top) && 0 <= i < |top| ==> cs[id].ltv <= top[i].ltv)
  }

  /** The position of a customer with the least ltv: the element a min-heap's `poll` takes. */
  method MinIndex(heap: seq<Customer>) returns (m: nat)
    requires |heap| > 0
    ensures m < |heap|
    ensures forall j :: 0 <= j < |heap| ==> heap[m].ltv <= heap[j].ltv
  {
    m := 0;
    var i := 1;
    while i < |heap|
      invariant m < i <= |heap|
      invariant forall j :: 0 <= j < i ==> heap[m].ltv <= heap[j].ltv
    {
      if heap[i].ltv < heap[m].ltv {
        m := i;
      }
      i := i + 1;
    }
  }

  /** The sequence without its element at `m`, the others kept in order. */
  function RemoveAt(heap: seq<Customer>, m: nat): (r: seq<Customer>)
    requires m < |heap|
    ensures |r| == |heap| - 1
    ensures forall i :: 0 <= i < m ==> r[i] == heap[i]
    ensures forall i :: m <= i < |r| ==> r[i] == heap[i + 1]
  {
    heap[..m] + heap[m + 1..]
  }

  /** No customer id occurs twice. */
  predicate Distinct(heap: seq<Customer>)
  {
    forall i, j :: 0 <= i < j < |heap| ==> heap[i].customerId != heap[j].customerId
  }

  /** The ids after a push are the old ids and the pushed one. */
  lemma PushIds(heap: seq<Customer>, user: Customer)
    ensures Ids(heap + [user]) == Ids(heap) + {user.customerId}
  {
    var pushed := heap + [user];
    forall x | x in Ids(pushed) ensures x in Ids(heap) + {user.customerId} {
      var i :| 0 <= i < |pushed| && pushed[i].customerId == x;
      if i < |heap| { assert heap[i] == pushed[i]; }
    }
    forall x | x in Ids(heap) ensures x in Ids(pushed) {
      var i :| 0 <= i < |heap| && heap[i].customerId == x;
      assert pushed[i] == heap[i];
    }
    assert pushed[|heap|] == user;
  }

  /** Removing one element of a sequence of distinct customers removes exactly its id. */
  lemma RemoveAtIds(heap: seq<Customer>, m: nat)
    requires m < |heap| && Distinct(heap)
    ensures Distinct(RemoveAt(heap, m))
    ensures Ids(RemoveAt(heap, m)) == Ids(heap) - {heap[m].customerId}
  {
    var r := RemoveAt(heap, m);
    forall i | 0 <= i < |r| ensures r[i] == heap[if i < m then i else i + 1] { }
    forall x | x in Ids(r) ensures x in Ids(heap) - {heap[m].customerId} {
      var i :| 0 <= i < |r| && r[i].customerId == x;
      var j := if i < m then i else i + 1;
      assert r[i] == heap[j] && j != m;
    }
    forall x | x in Ids(heap) - {heap[m].customerId} ensures x in Ids(r) {
      var j :| 0 <= j < |heap| && heap[j].customerId == x;
      assert j != m;
      var i := if j < m then j else j - 1;
      assert r[i] == heap[j];
    }
  }

  /** The loop invariant of the bounded min-heap after the customers `seen` have been pushed:
      it holds min(k, |seen|) distinct customers, each as it stands in `cs`; while it is below
      capacity nothing has been evicted; and every customer seen but evicted has an ltv no
      greater than every customer held. */
  ghost predicate Selecting(cs: map<string, Customer>, seen: set<string>, heap: seq<Customer>, k: int)
  {
    && seen <= cs.Keys
    && (forall i :: 0 <= i < |heap| ==> heap[i].customerId in seen && cs[heap[i].customerId] == heap[i])
    && Distinct(heap)
    && |heap| == (if k <= 0 then 0 else Min(k, |seen|))
    && (|heap| < k ==> seen <= Ids(heap))
    && (forall id, i :: id in seen && id !in Ids(heap) && 0 <= i < |heap| ==> cs[id].ltv <= heap[i].ltv)
  }

  /** Pushing one more customer onto a heap that is not yet at capacity. */
  lemma PushKeepsSelecting(cs: map<string, Customer>, seen: set<string>, heap: seq<Customer>,
                                              k: int, id: string, user: Customer)
    requires Selecting(cs, seen, heap, k)
    requires id in cs && id !in seen && user.customerId == id
    requires |heap| + 1 <= k
    ensures Selecting(cs[id := user], seen + {id}, heap + [user], k)
  {
    var cs', seen', pushed := cs[id := user], seen + {id}, heap + [user];
    assert |seen'| == |seen| + 1;
    assert seen' <= Ids(pushed) by {
      PushIds(heap, user);
    }
    assert forall i :: 0 <= i < |pushed| ==> pushed[i].customerId in seen' && cs'[pushed[i].customerId] == pushed[i] by {
      forall i | 0 <= i < |pushed|
        ensures pushed[i].customerId in seen' && cs'[pushed[i].customerId] == pushed[i]
      {
        if i < |heap| { assert pushed[i] == heap[i]; }
      }
    }
    assert Distinct(pushed) by {
      forall i | 0 <= i < |heap| ensures pushed[i].customerId != id {
        assert pushed[i] == heap[i];
      }
    }
  }

  /** After pushing onto a full heap and evicting a minimum, every customer seen but not kept
      is no greater than every customer kept. */
  lemma EvictedBelowKept(cs: map<string, Customer>, seen: set<string>, heap: seq<Customer>,
                                            id: string, user: Customer, m: nat)
    requires id in cs && id !in seen && user.customerId == id && seen <= cs.Keys
    requires forall x, i :: x in seen && x !in Ids(heap) && 0 <= i < |heap| ==> cs[x].ltv <= heap[i].ltv
    requires forall i :: 0 <= i < |heap| ==> heap[i].customerId in seen && cs[heap[i].customerId] == heap[i]
    requires m <= |heap| && Distinct(heap + [user])
    requires forall j :: 0 <= j < |heap| + 1 ==> (heap + [user])[m].ltv <= (heap + [user])[j].ltv
    ensures var kept := RemoveAt(heap + [user], m);
            forall x, i :: x in seen + {id} && x !in Ids(kept) && 0 <= i < |kept| ==> cs[id := user][x].ltv <= kept[i].ltv
  {
    var cs', pushed := cs[id := user], heap + [user];
    var kept := RemoveAt(pushed, m);
    var evicted := pushed[m];
    PushIds(heap, user);
    RemoveAtIds(pushed, m);
    assert cs'[evicted.customerId] == evicted by {
      if m < |heap| { assert evicted == heap[m]; }
    }
    forall x, i | x in seen + {id} && x !in Ids(kept) && 0 <= i < |kept|
      ensures cs'[x].ltv <= kept[i].ltv
    {
      var j := if i < m then i else i + 1;
      assert kept[i] == pushed[j];
      if x != evicted.customerId {
        assert x in seen && x != id && x !in Ids(heap);
        if j < |heap| {
          assert pushed[j] == heap[j];
        } else {
          assert m < |heap| && evicted == heap[m];
        }
      }
    }
  }

  /** Pushing one more customer onto a full heap and then evicting a minimum keeps the
      invariant. */
  lemma PushEvictKeepsSelecting(cs: map<string, Customer>, seen: set<string>, heap: seq<Customer>,
                                                   k: int, id: string, user: Customer, m: nat)
    requires Selecting(cs, seen, heap, k)
    requires id in cs && id !in seen && user.customerId == id
    requires |heap| + 1 > k
    requires m <= |heap|
    requires forall j :: 0 <= j < |heap| + 1 ==> (heap + [user])[m].ltv <= (heap + [user])[j].ltv
    ensures Selecting(cs[id := user], seen + {id}, RemoveAt(heap + [user], m), k)
  {
    var cs', seen', pushed := cs[id := user], seen + {id}, heap + [user];
    var kept := RemoveAt(pushed, m);
    assert |seen'| == |seen| + 1;
    assert forall i :: 0 <= i < |pushed| ==> pushed[i].customerId in seen' && cs'[pushed[i].customerId] == pushed[i] by {
      forall i | 0 <= i < |pushed|
        ensures pushed[i].customerId in seen' && cs'[pushed[i].customerId] == pushed[i]
      {
        if i < |heap| { assert pushed[i] == heap[i]; }
      }
    }
    assert Distinct(pushed) by {
      forall i | 0 <= i < |heap| ensures pushed[i].customerId != id {
        assert pushed[i] == heap[i];
      }
    }
    RemoveAtIds(pushed, m);
    assert forall i :: 0 <= i < |kept| ==> kept[i].customerId in seen' && cs'[kept[i].customerId] == kept[i] by {
      forall i | 0 <= i < |kept|
        ensures kept[i].customerId in seen' && cs'[kept[i].customerId] == kept[i]
      {
        assert kept[i] == pushed[if i < m then i else i + 1];
      }
    }
    EvictedBelowKept(cs, seen, heap, id, user, m);
  }

  /** The customers with the ltv of those in `done` recomputed at `now`. */
  function PartlyRefreshed(cs: map<string, Customer>, done: set<string>, now: Time): (r: map<string, Customer>)
    ensures r.Keys == cs.Keys
  {
    map id | id in cs :: if id in done then WithLtv(cs[id], now) else cs[id]
  }

  lemma RefreshOneMore(cs: map<string, Customer>, done: set<string>, now: Time, id: string)
    requires id in cs && id !in done
    ensures PartlyRefreshed(cs, done, now)[id := WithLtv(cs[id], now)] == PartlyRefreshed(cs, done + {id}, now)
  {
  }

  lemma RefreshedAll(cs: map<string, Customer>, now: Time)
    ensures PartlyRefreshed(cs, cs.Keys, now) == Refreshed(cs, now)
  {
  }

  /** Once every customer has been refreshed and pushed, the heap is a top-k selection of
      the refreshed customers. */
  lemma SelectingDone(cs: map<string, Customer>, now: Time, seen: set<string>, heap: seq<Customer>, k: int)
    requires seen == cs.Keys
    requires Selecting(PartlyRefreshed(cs, seen, now), seen, heap, k)
    ensures PartlyRefreshed(cs, seen, now) == Refreshed(cs, now)
    ensures IsTopK(Refreshed(cs, now), heap, k)
  {
  }

  /** One iteration of the selection loop: refresh customer `id` and push it, evicting the
      minimum at `m` when the heap would exceed `k`. */
  lemma SelectStep(cs: map<string, Customer>, now: Time, k: int, seen: set<string>,
                                      heap: seq<Customer>, id: string, m: nat)
    requires Keyed(cs) && seen <= cs.Keys && id in cs && id !in seen
    requires Selecting(PartlyRefreshed(cs, seen, now), seen, heap, k)
    requires |heap| + 1 > k ==> m <= |heap| && forall j :: 0 <= j < |heap| + 1 ==>
               (heap + [WithLtv(cs[id], now)])[m].ltv <= (heap + [WithLtv(cs[id], now)])[j].ltv
    ensures var user := WithLtv(cs[id], now);
            var heap' := if |heap| + 1 > k then RemoveAt(heap + [user], m) else heap + [user];
            && PartlyRefreshed(cs, seen, now)[id := user] == PartlyRefreshed(cs, seen + {id}, now)
            && Selecting(PartlyRefreshed(cs, seen + {id}, now), seen + {id}, heap', k)
  {
    var refreshed, user := PartlyRefreshed(cs, seen, now), WithLtv(cs[id], now);
    assert refreshed[id] == cs[id] && user.customerId == id;
    RefreshOneMore(cs, seen, now, id);
    if |heap| + 1 > k {
      PushEvictKeepsSelecting(refreshed, seen, heap, k, id, user, m);
    } else {
      PushKeepsSelecting(refreshed, seen, heap, k, id, user);
    }
  }

  /** One customer of the top-k loop: recompute its ltv in the ledger, push it onto the heap,
      and evict a minimum if the heap now holds more than `k`. */
  method Push(cs: map<string, Customer>, now: Time, k: int, ghost seen: set<string>,
              refreshed: map<string, Customer>, heap: seq<Customer>, id: string)
    returns (refreshed': map<string, Customer>, heap': seq<Customer>)
    requires Keyed(cs) && seen <= cs.Keys && id in cs && id !in seen
    requires refreshed == PartlyRefreshed(cs, seen, now)
    requires Selecting(refreshed, seen, heap, k)
    ensures refreshed' == PartlyRefreshed(cs, seen + {id}, now)
    ensures Selecting(refreshed', seen + {id}, heap', k)
  {
    var user := WithLtv(refreshed[id], now);
    assert refreshed[id] == cs[id];
    refreshed' := refreshed[id := user];
    heap' := heap + [user];
    var m := 0;
    if |heap'| > k {
      m := MinIndex(heap');
    }
    SelectStep(cs, now, k, seen, heap, id, m);
    if |heap'| > k {
      heap' := RemoveAt(heap', m);
    }
  }

  /** The loop of the top-k query: every customer of the ledger goes through `Push`. */
  method PushAll(cs: map<string, Customer>, now: Time, k: int)
    returns (refreshed: map<string, Customer>, heap: seq<Customer>)
    requires Keyed(cs)
    ensures refreshed == PartlyRefreshed(cs, cs.Keys, now)
    ensures Selecting(refreshed, cs.Keys, heap, k)
  {
    refreshed := cs;
    heap := [];
    var remaining := cs.Keys;
    ghost var seen: set<string> := {};
    assert refreshed == PartlyRefreshed(cs, seen, now);
    while remaining != {}
      invariant seen <= cs.Keys && remaining == cs.Keys - seen
      invariant refreshed == PartlyRefreshed(cs, seen, now)
      invariant Selecting(refreshed, seen, heap, k)
      decreases remaining
    {
      var id :| id in remaining;
      refreshed, heap := Push(cs, now, k, seen, refreshed, heap, id);
      assert remaining - {id} == cs.Keys - (seen + {id});
      remaining := remaining - {id};
      seen := seen + {id};
    }
    assert seen == cs.Keys;
  }

  /** The top-k query over the customer ledger: every customer's ltv refreshed at `now`, and
      the `k` customers of highest ltv, in no particular order. */
  method SelectTopK(cs: map<string, Customer>, now: Time, k: int)
    returns (refreshed: map<string, Customer>, top: seq<Customer>)
    requires Keyed(cs)
    ensures refreshed == Refreshed(cs, now)
    ensures IsTopK(refreshed, top, k)
  {
    refreshed, top := PushAll(cs, now, k);
    SelectingDone(cs, now, cs.Keys, top, k);
  }

  class Shutterfly {
    /** Customer id to customer aggregate. */
    var customerProfile: map<string, Customer>
    /** Order id to reconciled order record. */
    var orderHistory: map<string, Order>
    /** The latest event time among all ingested events. */
    var latestDate: Option<Time>

    ghost function Snapshot(): State
      reads this
    {
      State(customerProfile, orderHistory, latestDate)
    }

    ghost predicate Valid()
      reads this
    {
      WellFormed(Snapshot())
    }

    constructor ()
      ensures Valid() && Snapshot() == Initial
    {
      customerProfile, orderHistory, latestDate := map[], map[], None;
      assert Expenditures(map[]) == map[] && Prices(map[]) == map[];
    }

    /** Applies one decoded event. Succeeds for every decoded event: an amount that did not
        parse skips the money but not the visit. */
    method Ingest(e: Event) returns (ok: bool)
      requires Valid()
      modifies this
      ensures Valid()
      ensures ok
      ensures Snapshot() == Step(old(Snapshot()), e)
    {
      ghost var before := Snapshot();
      var et := e.eventTime;
      if latestDate.None? || et > latestDate.value {
        latestDate := Some(et);
      }
      assert latestDate == Step(before, e).latestDate;
      StepLedgersIgnoreWatermark(before, e, latestDate);
      match e {
        case CustomerEvent(_, _, _, _, _, _) =>
          IngestCustomer(e);
        case OrderEvent(_, _, _, _, _) =>
          IngestOrder(e);
        case SiteVisitEvent(_, _, _, customerId) =>
          VisitCustomer(customerId, et);
        case ImageEvent(_, _, _, customerId) =>
          VisitCustomer(customerId, et);
        case OtherEvent(_, _, _) =>
      }
      assert customerProfile == Step(before, e).customers && orderHistory == Step(before, e).orders;
      StepWellFormed(before, e);
      ok := true;
    }

    /** The ledger part of a CUSTOMER event: visit or create, then, for NEW, the profile. */
    method IngestCustomer(e: Event)
      requires e.CustomerEvent?
      modifies this`customerProfile
      ensures customerProfile == Step(old(Snapshot()), e).customers
    {
      var key, et := e.key, e.eventTime;
      // The customer may already exist even for a NEW verb: events arrive in any order.
      VisitCustomer(key, et);
      if e.verb == NEW {
        var c := customerProfile[key];
        customerProfile := customerProfile[key := c.(startDate := et, lastName := Some(e.lastName),
                                                     adrCity := Some(e.adrCity), adrState := Some(e.adrState))];
      }
    }

    /** The ledger part of an ORDER event: visit or create the customer, then reconcile the
        order and add the resulting delta to the customer's expenditures. */
    method IngestOrder(e: Event)
      requires e.OrderEvent?
      modifies this`customerProfile, this`orderHistory
      ensures customerProfile == Step(old(Snapshot()), e).customers
      ensures orderHistory == Step(old(Snapshot()), e).orders
    {
      var verb, key, et, customerId := e.verb, e.key, e.eventTime, e.customerId;
      VisitCustomer(customerId, et);
      var user := customerProfile[customerId];
      if e.totalAmount.Some? {
        var exp := e.totalAmount.value;
        if key in orderHistory {
          var prevOrder := orderHistory[key];
          // Shutterfly.java:148 writes `v != "NEW"`, a reference comparison; the value
          // comparison is what its comments intend.
          if verb != NEW && et > prevOrder.orderDate {
            var diff := exp - prevOrder.price;
            orderHistory := orderHistory[key := Order(et, exp)];
            exp := diff;
          } else {
            exp := 0.0;
          }
        } else {
          orderHistory := orderHistory[key := Order(et, exp)];
        }
        customerProfile := customerProfile[customerId := user.(expenditures := user.expenditures + exp)];
      }
    }

    /** Creates the customer at `et` or counts one more visit. */
    method VisitCustomer(id: string, et: Time)
      modifies this`customerProfile
      ensures customerProfile == GetOrCreate(old(customerProfile), id, et)
    {
      if id !in customerProfile {
        customerProfile := customerProfile[id := NewCustomer(id, et)];
      } else {
        var user := customerProfile[id];
        customerProfile := customerProfile[id := user.(visits := user.visits + 1)];
      }
    }

    /** Refreshes every customer's ltv at the watermark and returns the `k` customers of
        highest ltv, in no particular order. */
    method TopXSimpleLTVCustomers(k: int) returns (top: seq<Customer>)
      requires Valid()
      modifies this`customerProfile
      ensures Valid()
      ensures latestDate.Some? ==> customerProfile == Refreshed(old(customerProfile), latestDate.value)
      ensures latestDate.None? ==> customerProfile == map[]
      ensures IsTopK(customerProfile, top, k)
    {
      // Without a watermark there is no customer, so the date is never used.
      var now := if latestDate.Some? then latestDate.value else 0;
      ghost var before := Snapshot();
      customerProfile, top := SelectTopK(customerProfile, now, k);
      assert Expenditures(customerProfile) == Expenditures(before.customers);
    }
  }
}
