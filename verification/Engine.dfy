/**
 The order, stock and payment engine as one state machine: every event is a
 committed transaction, and one that raises leaves the state as it was.
 */
module Engine {
  import opened Wrappers
  import opened Tables
  import opened Sorting
  import opened Inventories
  import opened Reservations
  import opened Pricing
  import opened Orders
  import opened Invariants
  import opened Payments
  import opened PaymentMatch
  import opened Steps
  import PrintJobs

  datatype Event =
    | Creating(shop: Shop, req: CreateRequest)
    | Visiting(existing: Option<string>, token: string, now: int, ttlMinutes: int)
    | Paying(n: Notification, now: int)
    | Matching(m: MatchRequest, now: int)
    | Activating(shop: Shop, now: int)
    | Cancelling(order: nat)
    | Sweeping(cutoff: int, limit: nat)
    | Switching(id: int, inventory: Inventory)
    | Claiming(job: nat, retries: int)
    | Finishing(claim: PrintJobs.Claim, outcome: PrintJobs.Printing, now: int, clears: bool)
    | Recovering(now: int, batch: int, seconds: int)

  function Step(s: Store, e: Event): Store {
    match e
    case Creating(shop, req) =>
      var r := Create(s, shop, req);
      if r.Ok? then r.value.0 else s
    case Visiting(existing, token, now, ttl) =>
      var r := IssueSession(s.keys, existing, token, now, ttl);
      if r.Some? then s.(keys := r.value.0) else s
    case Paying(n, now) =>
      var r := Notify(s, n, now);
      if r.Ok? then r.value else s
    case Matching(m, now) =>
      var r := Match(s, m, now);
      if r.Ok? then r.value.0 else s
    case Activating(shop, now) => Activate(s, shop, now)
    case Cancelling(k) => Cancel(s, k).0
    case Sweeping(cutoff, limit) => CancelStale(s, cutoff, limit).0
    case Switching(id, inventory) =>
      var r := SetInventory(s, id, inventory);
      if r.Some? then r.value else s
    case Claiming(j, retries) => s.(jobs := PrintJobs.ClaimJob(s.jobs, j, retries).0)
    case Finishing(c, outcome, now, clears) => s.(jobs := PrintJobs.FinishJob(s.jobs, c, outcome, now, clears))
    case Recovering(now, batch, seconds) => s.(jobs := PrintJobs.Recover(s.jobs, now, batch, seconds))
  }

  function Run(s: Store, es: seq<Event>): Store
    decreases es
  {
    if es == [] then s else Run(Step(s, es[0]), es[1..])
  }

  // ---------- every run ----------

  lemma StepKeeps(s: Store, e: Event)
    requires Valid(s)
    ensures Keeps(s, Step(s, e))
  {
    hide Create, IssueSession, Notify, Match, Activate, Cancel, SetInventory, Valid, Later;
    hide PrintJobs.ClaimJob, PrintJobs.FinishJob, PrintJobs.Recover;
    LaterReflexive(s);
    match e {
      case Creating(shop, req) =>
        if Create(s, shop, req).Ok? {
          CreateKeeps(s, shop, req);
        }
      case Visiting(existing, token, now, ttl) =>
        if IssueSession(s.keys, existing, token, now, ttl).Some? {
          SessionKeeps(s, existing, token, now, ttl);
        }
      case Paying(n, now) =>
        if Notify(s, n, now).Ok? {
          NotifyKeeps(s, n, now);
        }
      case Matching(m, now) =>
        if Match(s, m, now).Ok? {
          MatchKeeps(s, m, now);
        }
      case Activating(shop, now) => ActivateKeeps(s, shop, now);
      case Cancelling(k) => CancelKeeps(s, k);
      case Sweeping(cutoff, limit) => CancelAllKeeps(s, [], StaleIds(s.orders, cutoff, limit));
      case Switching(id, inventory) =>
        if SetInventory(s, id, inventory).Some? {
          SwitchKeeps(s, id, inventory);
        }
      case _ =>
        SameJobOwners(s, e);
        JobsOnlyKeeps(s, Step(s, e).jobs);
    }
  }

  lemma SameJobOwners(s: Store, e: Event)
    requires e.Claiming? || e.Finishing? || e.Recovering?
    ensures Step(s, e) == s.(jobs := Step(s, e).jobs)
    ensures |Step(s, e).jobs| == |s.jobs| && forall j :: 0 <= j < |s.jobs| ==> Step(s, e).jobs[j].order == s.jobs[j].order
  {
  }

  /**
   Over any run from a valid state: the invariants of every table hold at the end,
   nothing final was taken back, and for every product shelf stock plus the units
   of orders never auto-cancelled is what it was.
   */
  lemma {:induction false} RunKeeps(s: Store, es: seq<Event>)
    requires Valid(s)
    ensures Keeps(s, Run(s, es))
    decreases es
  {
    hide Step, Valid, Later;
    if es == [] {
      LaterReflexive(s);
    } else {
      StepKeeps(s, es[0]);
      RunKeeps(Step(s, es[0]), es[1..]);
      KeepsTransitive(s, Step(s, es[0]), Run(Step(s, es[0]), es[1..]));
    }
  }

  /** The shop before its first order, session or payment. */
  function Opening(products: map<int, Product>, options: map<int, SpecOption>, coupons: map<int, Coupon>): Store {
    Store(products, options, coupons, map[], [], [], [], [], [], [])
  }

  lemma OpeningIsValid(products: map<int, Product>, options: map<int, SpecOption>, coupons: map<int, Coupon>)
    ensures Valid(Opening(products, options, coupons))
  {
  }

  /** Starting without orders, what left the shelf is what the outstanding orders hold. */
  lemma StockConserved(s: Store, es: seq<Event>, id: int)
    requires Valid(s) && s.orders == [] && id in s.products
    ensures var t := Run(s, es);
            && id in t.products
            && t.products[id].stock + Outstanding(t.orders, t.cancels, id) == s.products[id].stock
  {
    RunKeeps(s, es);
    assert Accounted(Run(s, es), id) == Accounted(s, id);
  }

  /** In every reachable state each slot counts the orders that hold it, within its capacity. */
  lemma SlotsCounted(s: Store, es: seq<Event>, j: nat)
    requires Valid(s) && j < |Run(s, es).slots|
    ensures var t := Run(s, es); t.slots[j].reserved == Holding(t.orders, j) <= t.slots[j].capacity
  {
    RunKeeps(s, es);
  }

  /** An order is scheduled exactly while it holds a slot, and releasing that slot really decrements it. */
  lemma ReleaseDecrements(s: Store, es: seq<Event>, k: nat)
    requires Valid(s) && k < |Run(s, es).orders|
    ensures var t := Run(s, es);
            && (t.orders[k].isScheduled <==> t.orders[k].slot.Some?)
            && (t.orders[k].slot.Some? ==>
                 var j := t.orders[k].slot.value;
                 j < |t.slots| && t.slots[j].reserved > 0 && Release(t.slots, Some(j))[j].reserved == t.slots[j].reserved - 1)
  {
    RunKeeps(s, es);
    var t := Run(s, es);
    assert OrderOk(t.orders[k]);
    if t.orders[k].slot.Some? {
      HoldingPositive(t.orders, k, t.orders[k].slot.value);
    }
  }

  /**
   In every reachable state the payment is settled exactly when the status is paid
   or in production; settling is final, leaving the waiting state is final, an order
   once settled is never auto-cancelled, and no order is auto-cancelled twice.
   */
  lemma PaymentAgrees(s: Store, es: seq<Event>, k: nat)
    requires Valid(s) && k < |s.orders|
    ensures var t := Run(s, es);
            && k < |t.orders|
            && (t.orders[k].payment == Settled <==> t.orders[k].status == Paid || t.orders[k].status == InProduction)
            && (s.orders[k].payment == Settled ==> t.orders[k].payment == Settled && (k in t.cancels ==> k in s.cancels))
            && (s.orders[k].status != PendingPayment ==> t.orders[k].status != PendingPayment)
            && NoDups(t.cancels) && s.cancels <= t.cancels
  {
    RunKeeps(s, es);
    assert OrderOk(Run(s, es).orders[k]);
    assert OrderLater(s.orders[k], Run(s, es).orders[k]);
  }

  /**
   In every reachable state a matched payment record points to a settled order, and
   it is the record it was when it was matched.
   */
  lemma LedgerAgrees(s: Store, es: seq<Event>, i: nat)
    requires Valid(s) && i < |Run(s, es).payments| && IsMatched(Run(s, es).payments[i])
    ensures var t := Run(s, es);
            && t.payments[i].order.Some? && t.payments[i].order.value < |t.orders|
            && t.orders[t.payments[i].order.value].payment == Settled
            && (i < |s.payments| && IsMatched(s.payments[i]) ==> t.payments[i] == s.payments[i])
  {
    RunKeeps(s, es);
    assert RecordOk(Run(s, es).payments[i], Run(s, es).orders);
  }

  /** No two records share a transaction id, and no order is matched by an administrator twice. */
  lemma LedgerUnique(s: Store, es: seq<Event>, i: nat, j: nat)
    requires Valid(s) && i < j < |Run(s, es).payments|
    ensures var t := Run(s, es);
            && (t.payments[i].txn.Some? ==> t.payments[i].txn != t.payments[j].txn)
            && (t.payments[i].matchedBy.Some? && t.payments[j].matchedBy.Some? ==> t.payments[i].order != t.payments[j].order)
  {
    RunKeeps(s, es);
  }

  // ---------- idempotent creation ----------

  /** What a committed creation leaves under its key, for a day. */
  lemma CreateAnswers(s: Store, shop: Shop, req: CreateRequest)
    requires Valid(s) && Create(s, shop, req).Ok?
    ensures var (s', receipt) := Create(s, shop, req).value;
            && req.key in s'.keys
            && s'.keys[req.key].scope == CreateScope
            && s'.keys[req.key].hash == Some(req.payload) && s'.keys[req.key].snapshot == Some(receipt)
            && s'.keys[req.key].expiry == Some(req.now + 86_400 * SECOND)
  {
  }

  /** The state in which only the expiry of one key has moved. */
  function Renewed(s: Store, key: string, now: int): Store
    requires key in s.keys
  {
    s.(keys := s.keys[key := s.keys[key].(expiry := Some(now + 86_400 * SECOND))])
  }

  /**
   After a committed creation, however many events later and at any time: the same
   key with another payload is refused; with the same payload the stored receipt
   comes back and only the expiry of the key changes.
   */
  lemma ReplayReturnsReceipt(s: Store, shop: Shop, req: CreateRequest, between: seq<Event>, shop': Shop, again: CreateRequest)
    requires Valid(s) && Create(s, shop, req).Ok? && again.key == req.key
    ensures var (s', receipt) := Create(s, shop, req).value;
            var t := Run(s', between);
            && req.key in t.keys
            && receipt.orderId < |t.orders| && t.orders[receipt.orderId].number == receipt.number
            && t.orders[receipt.orderId].total == receipt.total
            && Create(t, shop', again) ==
               if Precheck(t.keys, again).Some? then Err(Precheck(t.keys, again).value)
               else if again.payload != req.payload then Err(KeyReused)
               else Ok((Renewed(t, req.key, again.now), receipt))
  {
    var (s', receipt) := Create(s, shop, req).value;
    CreateAnswers(s, shop, req);
    CreateKeeps(s, shop, req);
    RunKeeps(s', between);
    var t := Run(s', between);
    assert KeyOk(t.keys[req.key], t.orders);
    hide Run, Keeps, Precheck, PlanSlot, TakeLines, Charge, Place;
    CreateOfAnswered(t, shop', again);
  }

  lemma CreateOfAnswered(t: Store, shop: Shop, again: CreateRequest)
    requires again.key in t.keys && t.keys[again.key].scope == CreateScope
    requires t.keys[again.key].hash.Some? && t.keys[again.key].snapshot.Some?
    ensures Create(t, shop, again) ==
            if Precheck(t.keys, again).Some? then Err(Precheck(t.keys, again).value)
            else if again.payload != t.keys[again.key].hash.value then Err(KeyReused)
            else Ok((Renewed(t, again.key, again.now), t.keys[again.key].snapshot.value))
  {
  }

  /** The event is a creation under `key` that inserts an order. */
  predicate Inserts(s: Store, e: Event, key: string) {
    e.Creating? && e.req.key == key && |Step(s, e).orders| > |s.orders|
  }

  function Insertions(s: Store, es: seq<Event>, key: string): nat
    decreases es
  {
    if es == [] then 0 else (if Inserts(s, es[0], key) then 1 else 0) + Insertions(Step(s, es[0]), es[1..], key)
  }

  lemma InsertionTakesKey(s: Store, e: Event, key: string)
    requires Valid(s) && Inserts(s, e, key)
    ensures key !in s.keys && key in Step(s, e).keys
  {
  }

  /** Over any run a key inserts at most one order, and none if it was in the table before. */
  lemma {:induction false} OneOrderPerKey(s: Store, es: seq<Event>, key: string)
    requires Valid(s)
    ensures Insertions(s, es, key) <= if key in s.keys then 0 else 1
    decreases es
  {
    hide Step, Valid, Inserts;
    if es != [] {
      StepKeeps(s, es[0]);
      OneOrderPerKey(Step(s, es[0]), es[1..], key);
      if Inserts(s, es[0], key) {
        InsertionTakesKey(s, es[0], key);
      }
    }
  }

  /** Every record keeps its scope, so guest sessions and order keys never meet. */
  lemma ScopesApart(s: Store, es: seq<Event>, key: string)
    requires Valid(s) && key in s.keys
    ensures key in Run(s, es).keys && Run(s, es).keys[key].scope == s.keys[key].scope
    ensures s.keys[key].scope == GuestScope ==>
      forall shop: Shop, req: CreateRequest :: req.key == key ==> Create(Run(s, es), shop, req).Err?
  {
    RunKeeps(s, es);
  }

  // ---------- coupons ----------

  /** A coupon redeemed by one order is never redeemed by another. */
  lemma CouponSpentOnce(s: Store, shop: Shop, req: CreateRequest, between: seq<Event>, shop': Shop, other: CreateRequest)
    requires Valid(s) && Inserts(s, Creating(shop, req), req.key)
    requires Redeems(req.payload.couponId, req.user)
    requires Redeems(other.payload.couponId, other.user) && other.payload.couponId == req.payload.couponId
    ensures !Inserts(Run(Step(s, Creating(shop, req)), between), Creating(shop', other), other.key)
  {
    var c := req.payload.couponId.value;
    var s' := Step(s, Creating(shop, req));
    CouponIsSpent(s, shop, req);
    StepKeeps(s, Creating(shop, req));
    RunKeeps(s', between);
    var t := Run(s', between);
    assert c in t.coupons && t.coupons[c].status == Used;
    if Inserts(t, Creating(shop', other), other.key) {
      CouponIsSpent(t, shop', other);
    }
  }

  lemma CouponIsSpent(s: Store, shop: Shop, req: CreateRequest)
    requires Inserts(s, Creating(shop, req), req.key) && Redeems(req.payload.couponId, req.user)
    ensures var c := req.payload.couponId.value;
            && c in s.coupons && s.coupons[c].status == Active
            && var s' := Step(s, Creating(shop, req));
               c in s'.coupons && s'.coupons[c].status == Used && s'.coupons[c].usedIn == Some(|s.orders|)
  {
  }
}
