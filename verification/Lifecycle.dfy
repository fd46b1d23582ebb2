/** What each event makes of the rows it touches, column by column, and how an order comes into production. */
module Lifecycle {
  import opened Wrappers
  import opened Tables
  import opened Inventories
  import opened Reservations
  import opened Pricing
  import opened Orders
  import opened Deduction
  import opened Invariants
  import opened Payments
  import opened PaymentMatch
  import opened Steps
  import opened Engine
  import opened Outcomes
  import Charges
  import PrintJobs

  // ---------- creation ----------

  /** The slot of an order that asked for a time: counted once more, or opened with the configured capacity. */
  ghost predicate Booked(slots: seq<Slot>, after: seq<Slot>, shop: Shop, plan: Plan, j: nat) {
    && j < |after| && after[j].start == plan.slotStart && after[j].end == plan.slotEnd
    && (if j < |slots| then
          && |after| == |slots| && after[j].capacity == slots[j].capacity && after[j].reserved == slots[j].reserved + 1
        else
          && |after| == |slots| + 1 && after[j].reserved == 1
          && after[j].capacity == (if shop.slotCapacity >= 1 then shop.slotCapacity else 1))
    && forall i :: 0 <= i < |slots| && i != j ==> after[i] == slots[i]
  }

  /** The reservation columns of a new order and the slots beside it. */
  ghost predicate Reserved(slots: seq<Slot>, after: seq<Slot>, shop: Shop, req: CreateRequest, o: Order) {
    match req.payload.scheduledAt
    case None => after == slots && !o.isScheduled && o.scheduledAt == None && o.slot == None
    case Some(wanted) =>
      && PlanTime(shop, req.now, wanted).Ok? && req.payload.orderType == Pickup
      && o.isScheduled && o.slot.Some?
      && var plan := PlanTime(shop, req.now, wanted).value;
         o.scheduledAt == Some(plan.scheduledAt) && Booked(slots, after, shop, plan, o.slot.value)
  }

  /** The status columns and the channel: settled at once only for cash and card at the counter. */
  predicate Counted(req: CreateRequest, o: Order) {
    if req.pos.None? then o.channel == None && o.status == PendingPayment && o.payment == Pending
    else
      && o.channel == Some(req.pos.value.channel)
      && if req.pos.value.channel == "cash" || req.pos.value.channel == "pos_card"
         then o.status == Paid && o.payment == Settled
         else o.status == PendingPayment && o.payment == Pending
  }

  lemma PlannedReserves(slots: seq<Slot>, shop: Shop, req: CreateRequest, slots': seq<Slot>, plan: Option<(int, nat)>, o: Order)
    requires PlanSlot(slots, shop, req) == Ok((slots', plan))
    requires forall i, j :: 0 <= i < j < |slots| ==> slots[i].start != slots[j].start
    requires o.isScheduled == plan.Some? && o.scheduledAt == (if plan.Some? then Some(plan.value.0) else None)
    requires o.slot == if plan.Some? then Some(plan.value.1) else None
    ensures Reserved(slots, slots', shop, req, o)
  {
    hide PlanTime, Reserve;
    if plan.Some? {
      var p := PlanTime(shop, req.now, req.payload.scheduledAt.value).value;
      ReserveExactly(slots, p.slotStart, p.slotEnd, shop.slotCapacity);
    }
  }

  lemma FinalColumns(req: CreateRequest, items: seq<Item>, total: nat, plan: Option<(int, nat)>)
    ensures var o := FinalOrder(req, items, total, plan);
            && o.number == req.number && o.user == req.user && o.createdAt == req.now
            && o.guest == (if req.user.Some? then None else req.payload.guest)
            && o.items == items && o.total == total && o.orderType == req.payload.orderType
            && o.couponId == req.payload.couponId && Counted(req, o)
            && o.isScheduled == plan.Some? && o.scheduledAt == (if plan.Some? then Some(plan.value.0) else None)
            && o.slot == (if plan.Some? then Some(plan.value.1) else None)
  {
  }

  /**
   The row a creation inserts and the receipt it returns: who ordered what and when,
   the planned time and its slot, the counter's settlement and print job.  No other
   order changes.
   */
  lemma CreatedRow(s: Store, shop: Shop, req: CreateRequest)
    requires Valid(s) && Inserts(s, Creating(shop, req), req.key)
    ensures var (t, receipt) := Create(s, shop, req).value;
            var n := |s.orders|;
            && |t.orders| == n + 1 && t.orders[..n] == s.orders
            && var o := t.orders[n];
               && o.number == req.number && o.user == req.user && o.createdAt == req.now
               && o.guest == (if req.user.Some? then None else req.payload.guest)
               && o.orderType == req.payload.orderType && o.couponId == req.payload.couponId
               && Counted(req, o) && Reserved(s.slots, t.slots, shop, req, o)
               && receipt == Receipt(n, req.number, o.status, o.total, o.items)
               && t.jobs == s.jobs + (if req.pos.Some? && req.pos.value.printJob then [Job(n, JobPending, 0, None)] else [])
  {
    hide Create, ClaimKey, PlanSlot, TakeLines, Charge, SpendCoupon, FinalOrder, Reserved, Counted, RowAccepted;
    var replay, keys, slots, plan, products, items, total := CreateStages(s, shop, req);
    FinalColumns(req, items, total, plan);
    PlannedReserves(s.slots, shop, req, slots, plan, FinalOrder(req, items, total, plan));
    assert (s.orders + [FinalOrder(req, items, total, plan)])[..|s.orders|] == s.orders;
  }

  /** What is asked of a request before anything is looked up, and of its guest session. */
  predicate Admitted(keys: map<string, KeyRecord>, req: CreateRequest) {
    && (exists i :: 0 <= i < |req.key| && req.key[i] !in {' ', '\t', '\n', '\r'})
    && (req.user.Some? || req.payload.guest.Some?)
    && (req.payload.orderType == Delivery ==> req.payload.address.Some?)
    && (req.payload.guest.Some? ==>
         var g := req.payload.guest.value;
         g in keys && keys[g].scope == GuestScope && (keys[g].expiry.None? || req.now <= keys[g].expiry.value))
  }

  /** The first problem named: the key, then the guest, then the address, then the guest session. */
  lemma PrecheckNames(keys: map<string, KeyRecord>, req: CreateRequest)
    ensures Precheck(keys, req).None? <==> Admitted(keys, req)
    ensures Blank(req.key) ==> Precheck(keys, req) == Some(BlankKey)
    ensures !Blank(req.key) && req.user.None? && req.payload.guest.None? ==> Precheck(keys, req) == Some(GuestRequired)
    ensures !Blank(req.key) && req.user.Some? && req.payload.orderType == Delivery && req.payload.address.None? ==>
      Precheck(keys, req) == Some(AddressRequired)
    ensures Precheck(keys, req) == Some(GuestExpired) <==>
      && !Blank(req.key) && (req.payload.orderType == Delivery ==> req.payload.address.Some?) && req.payload.guest.Some?
      && var g := req.payload.guest.value;
         g in keys && keys[g].scope == GuestScope && keys[g].expiry.Some? && keys[g].expiry.value < req.now
  {
  }

  /** A time, if asked for, can be planned and its slot has room; only pick-up orders may ask. */
  ghost predicate HasRoom(slots: seq<Slot>, shop: Shop, req: CreateRequest) {
    req.payload.scheduledAt.Some? ==>
      && req.payload.orderType == Pickup && PlanTime(shop, req.now, req.payload.scheduledAt.value).Ok?
      && var plan := PlanTime(shop, req.now, req.payload.scheduledAt.value).value;
         forall j :: 0 <= j < |slots| && slots[j].start == plan.slotStart ==> slots[j].reserved < slots[j].capacity
  }

  lemma PlansExactly(slots: seq<Slot>, shop: Shop, req: CreateRequest)
    requires forall i, j :: 0 <= i < j < |slots| ==> slots[i].start != slots[j].start
    ensures PlanSlot(slots, shop, req).Ok? <==> HasRoom(slots, shop, req)
  {
    hide PlanTime, Reserve;
    if req.payload.scheduledAt.Some? && PlanTime(shop, req.now, req.payload.scheduledAt.value).Ok? {
      var p := PlanTime(shop, req.now, req.payload.scheduledAt.value).value;
      ReserveExactly(slots, p.slotStart, p.slotEnd, shop.slotCapacity);
    }
  }

  /** A coupon, if redeemed, is the customer's own and active. */
  predicate CouponOk(coupons: map<int, Coupon>, req: CreateRequest) {
    req.payload.couponId.Some? && req.payload.couponId.value != 0 && req.user.Some? ==>
      var c := req.payload.couponId.value;
      c in coupons && Some(coupons[c].owner) == req.user && coupons[c].status == Active
  }

  /** What the insert itself demands: an amount that is not negative, a coupon that exists, a new order number. */
  ghost predicate Insertable(s: Store, req: CreateRequest) {
    && (req.payload.couponId.Some? ==> req.payload.couponId.value in s.coupons)
    && (forall k :: 0 <= k < |s.orders| ==> s.orders[k].number != req.number)
    && ((Credited(s.coupons, req.payload.couponId, req.user) && req.payload.lines != []) ||
        Charges.Owed(s.products, s.options, req.payload.lines) >= 0)
  }

  /** A creation under a new key succeeds exactly when each of its conditions holds. */
  lemma CreatesExactly(s: Store, shop: Shop, req: CreateRequest)
    requires Valid(s) && req.key !in s.keys
    ensures Create(s, shop, req).Ok? <==>
            && Admitted(s.keys, req) && HasRoom(s.slots, shop, req)
            && Sufficient(s.products, s.options, req.payload.lines)
            && CouponOk(s.coupons, req) && Insertable(s, req)
  {
    hide PlanSlot, TakeLines, Charge, Precheck, Place, Valid;
    hide Sufficient, HasRoom, Admitted, Charges.Owed, Insertable, CouponOk;
    PrecheckNames(s.keys, req);
    ValidSlots(s);
    PlansExactly(s.slots, shop, req);
    TakesExactly(s.products, s.options, [], req.payload.lines);
    ChargesExactly(s.coupons, req, if TakeLines(s.products, s.options, [], req.payload.lines).Ok?
                                   then TakeLines(s.products, s.options, [], req.payload.lines).value.1 else []);
    if TakeLines(s.products, s.options, [], req.payload.lines).Ok? && CouponOk(s.coupons, req) {
      AcceptsExactly(s, req, TakeLines(s.products, s.options, [], req.payload.lines).value.1);
    }
  }

  lemma ValidSlots(s: Store)
    requires Valid(s)
    ensures forall i, j :: 0 <= i < j < |s.slots| ==> s.slots[i].start != s.slots[j].start
  {
  }

  lemma ChargesExactly(coupons: map<int, Coupon>, req: CreateRequest, items: seq<Item>)
    ensures Charge(coupons, req.payload.couponId, req.user, items).Ok? <==> CouponOk(coupons, req)
  {
    hide Subtotal;
  }

  lemma AcceptsExactly(s: Store, req: CreateRequest, items: seq<Item>)
    requires TakeLines(s.products, s.options, [], req.payload.lines).Ok?
    requires items == TakeLines(s.products, s.options, [], req.payload.lines).value.1
    requires Charge(s.coupons, req.payload.couponId, req.user, items).Ok?
    ensures RowAccepted(s, req, Charge(s.coupons, req.payload.couponId, req.user, items).value) <==> Insertable(s, req)
  {
    hide TakeLines, QuoteLines, Subtotal, Charges.Owed, Charges.UnitPrice;
    TakenIsQuoted(s.products, s.products, s.options, [], req.payload.lines);
    Charges.QuotedOwed(s.products, s.options, [], req.payload.lines, items);
    Charges.EmptySubtotal();
    Charges.ChargedOwed(s.coupons, req.payload.couponId, req.user, items,
                        Charge(s.coupons, req.payload.couponId, req.user, items).value);
  }

  /** A live session keeps its id; anyone else gets the fresh token, unless that is taken. */
  lemma SessionKept(keys: map<string, KeyRecord>, existing: Option<string>, token: string, now: int, ttlMinutes: int)
    ensures var r := IssueSession(keys, existing, token, now, ttlMinutes);
            var live := && existing.Some? && existing.value in keys && keys[existing.value].scope == GuestScope
                        && (keys[existing.value].expiry.None? || now <= keys[existing.value].expiry.value);
            && (r.None? <==> !live && token in keys)
            && (r.Some? ==>
                 && r.value.1 == (if live then existing.value else token)
                 && r.value.0.Keys == keys.Keys + {r.value.1}
                 && forall key :: key in keys && key != r.value.1 ==> r.value.0[key] == keys[key])
  {
  }

  // ---------- payment ----------

  /**
   An accepted callback sets its order to paid and settled, whatever it was, keeps a
   channel that is set and fills one that is not; no other order changes; the
   transaction is recorded once; and the side effects are enqueued unless the order
   was paid already.
   */
  lemma CallbackPays(s: Store, n: Notification, now: int, k: nat)
    requires Valid(s) && Accepts(s, n, k)
    ensures var t, o := Step(s, Paying(n, now)), s.orders[k];
            && t.orders == s.orders[k := o.(status := Paid, payment := Settled,
                                            channel := Some(if o.channel.Some? then o.channel.value else n.channel))]
            && t.payments == (if exists i :: 0 <= i < |s.payments| && s.payments[i].txn == Some(n.txn) then s.payments
                              else s.payments + [PaymentRecord(false, n.channel, n.amount, Some(n.txn), None, Some(k),
                                                               AutoMatched, None, n.paidAt)])
            && t.effects == s.effects + (if o.status == Paid then [] else [k])
            && t.products == s.products && t.slots == s.slots && t.coupons == s.coupons && t.keys == s.keys && t.cancels == s.cancels
  {
    ValidNumbers(s);
    hide WakeJob, Valid, Orders.FindOrder;
    AcceptsIsOk(s, n, now, k);
  }

  lemma ValidNumbers(s: Store)
    requires Valid(s)
    ensures OrdersOk(s.orders)
  {
  }

  /** A callback that no order accepts changes nothing. */
  lemma CallbackRefused(s: Store, n: Notification, now: int)
    requires Valid(s) && forall k: nat :: !Accepts(s, n, k)
    ensures Step(s, Paying(n, now)) == s
  {
    ValidNumbers(s);
    hide WakeJob, Valid, Orders.FindOrder, Recorded, MarkPaid;
    if Notify(s, n, now).Ok? {
      AcceptsIsOk(s, n, now, Orders.FindOrder(s.orders, n.number).value);
    }
  }

  /**
   A match sets its order to paid by static QR, marks its record as matched by hand
   exactly if the administrator named the order, and enqueues the side effects.
   */
  lemma MatchPays(s: Store, m: MatchRequest, now: int, k: nat)
    requires Match(s, m, now).Ok? && Match(s, m, now).value.1 == k
    ensures k < |s.orders| && Acquire(s.payments, m).Ok?
    ensures var t, (payments, i) := Match(s, m, now).value.0, Acquire(s.payments, m).value;
            && i < |payments|
            && s.orders[k].payment == Pending && s.orders[k].total == m.amount && (m.force.Some? ==> m.force == Some(k))
            && t.orders == s.orders[k := s.orders[k].(status := Paid, payment := Settled, channel := Some("static_qr"))]
            && t.payments == payments[i := payments[i].(match_ := if m.force.Some? then ManualMatched else AutoMatched,
                                                        order := Some(k), matchedBy := Some(m.admin),
                                                        qrSession := Some(m.qrSession))]
            && t.effects == s.effects + [k]
            && t.products == s.products && t.slots == s.slots && t.coupons == s.coupons && t.keys == s.keys && t.cancels == s.cancels
  {
    hide WakeJob, Acquire, Candidates;
    AcquiredIndex(s.payments, m);
  }

  lemma AcquiredIndex(payments: seq<PaymentRecord>, m: MatchRequest)
    requires Acquire(payments, m).Ok?
    ensures Acquire(payments, m).value.1 < |Acquire(payments, m).value.0|
  {
  }

  // ---------- production ----------

  /** The activation finds the order scheduled, its time come, paid and settled. */
  predicate Starts(s: Store, e: Event, k: nat) {
    && e.Activating? && e.shop.reservationEnabled && k < |s.orders|
    && s.orders[k].isScheduled && s.orders[k].scheduledAt.Some? && s.orders[k].scheduledAt.value <= e.now
    && s.orders[k].status == Paid && s.orders[k].payment == Settled
  }

  predicate InProductionNow(s: Store, k: nat) {
    k < |s.orders| && s.orders[k].status == InProduction
  }

  lemma SweepLeaves(s: Store, cutoff: int, limit: nat, k: nat)
    requires k < |s.orders|
    ensures var t := CancelStale(s, cutoff, limit).0;
            k < |t.orders| && (t.orders[k].status == InProduction <==> s.orders[k].status == InProduction)
  {
    SweepTakesOldest(s, cutoff, limit, k);
    hide CancelStale, Older;
  }

  lemma CreateLeavesStatus(s: Store, shop: Shop, req: CreateRequest, k: nat)
    requires Valid(s)
    ensures InProductionNow(Step(s, Creating(shop, req)), k) <==> InProductionNow(s, k)
  {
    hide Create, Reserved;
    if Inserts(s, Creating(shop, req), req.key) {
      CreatedRow(s, shop, req);
      var t := Create(s, shop, req).value.0;
      assert k < |s.orders| ==> t.orders[..|s.orders|][k] == t.orders[k];
    } else {
      ReplayLeavesOrders(s, shop, req);
    }
  }

  lemma ReplayLeavesOrders(s: Store, shop: Shop, req: CreateRequest)
    requires !Inserts(s, Creating(shop, req), req.key)
    ensures Step(s, Creating(shop, req)).orders == s.orders
  {
    hide Create, ClaimKey, PlanSlot, TakeLines, Charge, SpendCoupon, FinalOrder;
    if Create(s, shop, req).Ok? {
      var replay, keys, slots, plan, products, items, total := CreateStages(s, shop, req);
    }
  }

  /** One step: an order is in production exactly if it was and no callback paid it again, or an activation starts it. */
  lemma ProductionStep(s: Store, e: Event, k: nat)
    requires Valid(s)
    ensures InProductionNow(Step(s, e), k) <==>
            (InProductionNow(s, k) && !(e.Paying? && Accepts(s, e.n, k))) || Starts(s, e, k)
  {
    hide Create, IssueSession, Restored, Notify, Match, Valid, CancelStale;
    hide PrintJobs.ClaimJob, PrintJobs.FinishJob, PrintJobs.Recover;
    match e {
      case Creating(shop, req) => CreateLeavesStatus(s, shop, req, k);
      case Paying(n, now) =>
        if i: nat :| Accepts(s, n, i) {
          CallbackPays(s, n, now, i);
          SameNumber(s, n, i, k);
        } else {
          CallbackRefused(s, n, now);
        }
      case Matching(m, now) =>
        if Match(s, m, now).Ok? {
          MatchPays(s, m, now, Match(s, m, now).value.1);
          if k < |s.orders| {
            ValidOrder(s, k);
          }
        }
      case Sweeping(cutoff, limit) =>
        SameOrders(s, cutoff, limit);
        if k < |s.orders| {
          SweepLeaves(s, cutoff, limit, k);
        }
      case _ =>
    }
  }

  lemma SameOrders(s: Store, cutoff: int, limit: nat)
    ensures |CancelStale(s, cutoff, limit).0.orders| == |s.orders|
  {
    StaleIdsFacts(s.orders, cutoff, limit);
    CancelAllExactly(s, [], StaleIds(s.orders, cutoff, limit));
    hide CancelAll, StaleIds;
  }

  lemma SameNumber(s: Store, n: Notification, i: nat, k: nat)
    requires Valid(s) && Accepts(s, n, i)
    ensures Accepts(s, n, k) <==> k == i
  {
    ValidNumbers(s);
    hide Valid;
  }

  /** No callback accepted for the order comes in the run. */
  predicate NeverPaidAgain(s: Store, es: seq<Event>, k: nat)
    decreases es
  {
    es != [] ==> !(es[0].Paying? && Accepts(s, es[0].n, k)) && NeverPaidAgain(Step(s, es[0]), es[1..], k)
  }

  /** Some activation starts the order, and no callback is accepted for it after that. */
  predicate StartedForGood(s: Store, es: seq<Event>, k: nat)
    decreases es
  {
    es != [] &&
    ((Starts(s, es[0], k) && NeverPaidAgain(Step(s, es[0]), es[1..], k)) || StartedForGood(Step(s, es[0]), es[1..], k))
  }

  /**
   Over any run, an order is in production at the end exactly if it was and no
   callback was accepted for it, or some activation found it scheduled, due, paid and
   settled and no callback was accepted for it after that.
   */
  lemma {:induction false} ProductionExactly(s: Store, es: seq<Event>, k: nat)
    requires Valid(s)
    ensures InProductionNow(Run(s, es), k) <==>
            (InProductionNow(s, k) && NeverPaidAgain(s, es, k)) || StartedForGood(s, es, k)
    decreases es
  {
    hide Step, Valid, Starts, InProductionNow, Accepts;
    if es != [] {
      StepKeeps(s, es[0]);
      ProductionStep(s, es[0], k);
      ProductionExactly(Step(s, es[0]), es[1..], k);
    }
  }

  /** Every start is an activation at or after the planned time. */
  lemma {:induction false} StartedAtItsTime(s: Store, es: seq<Event>, k: nat) returns (i: nat)
    requires StartedForGood(s, es, k)
    ensures i < |es| && Starts(Run(s, es[..i]), es[i], k)
    decreases es
  {
    hide Step, Starts;
    if Starts(s, es[0], k) && NeverPaidAgain(Step(s, es[0]), es[1..], k) {
      i := 0;
    } else {
      var j := StartedAtItsTime(Step(s, es[0]), es[1..], k);
      i := j + 1;
      assert es[..i][0] == es[0] && es[..i][1..] == es[1..][..j];
    }
  }

  // ---------- what a cancellation reopens ----------

  /**
   Exactly a waiting, unpaid order is cancelled: its units go back, it is audited
   once, its place in a slot is given up, and of its own columns only the status and
   the reservation change.
   */
  lemma CancelWithdraws(s: Store, k: nat)
    requires Valid(s)
    ensures var (t, cancelled) := Cancel(s, k);
            && (cancelled <==> k < |s.orders| && s.orders[k].status == PendingPayment && s.orders[k].payment == Pending)
            && (!cancelled ==> t == s)
            && (cancelled ==>
                 var o := s.orders[k];
                 && t.orders == s.orders[k := o.(status := Cancelled, slot := None, isScheduled := false)]
                 && t.cancels == s.cancels + [k]
                 && (o.slot.None? ==> t.slots == s.slots)
                 && (o.slot.Some? ==>
                      var j := o.slot.value;
                      j < |s.slots| && s.slots[j].reserved > 0 &&
                      t.slots == s.slots[j := s.slots[j].(reserved := s.slots[j].reserved - 1)])
                 && (forall id :: id in s.products ==> id in t.products && t.products[id].stock == s.products[id].stock + Units(o.items, id))
                 && t.coupons == s.coupons && t.keys == s.keys && t.payments == s.payments && t.jobs == s.jobs
                 && t.effects == s.effects)
  {
    if k < |s.orders| && Cancellable(s.orders[k]) {
      HeldSlot(s, k);
      hide Valid, Restored;
      forall id | id in s.products
        ensures id in Restored(s.products, s.orders[k].items) &&
                Restored(s.products, s.orders[k].items)[id].stock == s.products[id].stock + Units(s.orders[k].items, id)
      {
        RestockReopens(s.products, s.orders[k].items, id);
        RestoredKeys(s.products, s.orders[k].items);
      }
    }
  }

  lemma HeldSlot(s: Store, k: nat)
    requires Valid(s) && k < |s.orders|
    ensures s.orders[k].isScheduled <==> s.orders[k].slot.Some?
    ensures s.orders[k].slot.Some? ==> s.orders[k].slot.value < |s.slots| && s.slots[s.orders[k].slot.value].reserved > 0
  {
    assert Run(s, []) == s;
    ReleaseDecrements(s, [], k);
  }

  lemma RestoredKeys(products: map<int, Product>, items: seq<Item>)
    ensures Restored(products, items).Keys == products.Keys
  {
  }

  /** A cancellation puts a product back on sale exactly if it was off and the order held some of it, switched off or sold out alike. */
  lemma CancelReopensExactly(s: Store, k: nat, id: int)
    requires k < |s.orders| && Cancellable(s.orders[k]) && id in s.products
    ensures var t := Cancel(s, k).0;
            && id in t.products && t.products[id].stock == s.products[id].stock + Units(s.orders[k].items, id)
            && (t.products[id].inventory == InStock && s.products[id].inventory == SoldOut <==>
                 s.products[id].inventory == SoldOut && Units(s.orders[k].items, id) > 0)
  {
    RestockReopens(s.products, s.orders[k].items, id);
    hide Restored;
  }

  /** An administrator switches a product off with three left; cancelling an order of two puts all five on sale. */
  lemma SwitchUndone()
    ensures var t := Run(COUNTER, [Switching(1, SoldOut), Cancelling(0)]);
            1 in t.products && t.products[1].inventory == InStock && t.products[1].stock == 5
  {
    var es := [Switching(1, SoldOut), Cancelling(0)];
    var s1 := Step(COUNTER, es[0]);
    assert WAITER.items[..0] == [] && Units(WAITER.items, 1) == 2;
    CancelReopensExactly(s1, 0, 1);
    assert es[1..] == [es[1]] && es[1..][1..] == [];
    assert Run(COUNTER, es) == Run(s1, es[1..]) == Run(Step(s1, es[1]), []);
  }
}
