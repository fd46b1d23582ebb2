/** Each committed step of the order engine keeps the invariants, loses no unit of stock and takes nothing back. */
module Steps {
  import opened Wrappers
  import opened Tables
  import opened Inventories
  import opened Reservations
  import opened Pricing
  import opened Orders
  import opened Deduction
  import opened Invariants
  import opened Payments
  import opened PaymentMatch

  /** The three things every step is shown to do. */
  ghost predicate Keeps(s: Store, s': Store) {
    && Valid(s')
    && Later(s, s')
    && forall id :: id in s.products ==> Accounted(s', id) == Accounted(s, id)
  }

  // ---------- tables that only depend on what orders never lose ----------

  lemma PaymentsStay(orders: seq<Order>, orders': seq<Order>, payments: seq<PaymentRecord>)
    requires PaymentsOk(orders, payments) && OrdersLater(orders, orders')
    ensures PaymentsOk(orders', payments)
  {
  }

  lemma KeysStay(orders: seq<Order>, orders': seq<Order>, keys: map<string, KeyRecord>)
    requires KeysOk(orders, keys) && OrdersLater(orders, orders')
    ensures KeysOk(orders', keys)
  {
  }

  /** Replacing one order by a later version of itself. */
  lemma UpdateLater(orders: seq<Order>, k: nat, o: Order)
    requires k < |orders| && OrderLater(orders[k], o)
    ensures OrdersLater(orders, orders[k := o])
  {
  }

  // ---------- creation ----------

  lemma ReserveKeeps(orders: seq<Order>, slots: seq<Slot>, start: int, end: int, capacity: int,
                     o: Order, slots': seq<Slot>, j: nat)
    requires SlotsOk(orders, slots) && Reserve(slots, start, end, capacity) == Ok((slots', j)) && o.slot == Some(j)
    ensures SlotsOk(orders + [o], slots')
  {
    hide Holding, FindSlot;
    if j == |slots| {
      HoldingNone(orders, j);
    }
    forall i | 0 <= i < |slots'|
      ensures slots'[i].reserved == Holding(orders + [o], i) <= slots'[i].capacity
    {
      HoldingAppend(orders, o, i);
    }
  }

  lemma PlannedSlotKeeps(orders: seq<Order>, slots: seq<Slot>, shop: Shop, req: CreateRequest, o: Order,
                         slots': seq<Slot>, plan: Option<(int, nat)>)
    requires SlotsOk(orders, slots) && PlanSlot(slots, shop, req) == Ok((slots', plan))
    requires o.slot == if plan.Some? then Some(plan.value.1) else None
    ensures SlotsOk(orders + [o], slots')
  {
    hide PlanTime;
    if plan.Some? {
      var p := PlanTime(shop, req.now, req.payload.scheduledAt.value).value;
      ReserveKeeps(orders, slots, p.slotStart, p.slotEnd, shop.slotCapacity, o, slots', plan.value.1);
    } else {
      forall j | 0 <= j < |slots|
        ensures Holding(orders + [o], j) == Holding(orders, j)
      {
        HoldingAppend(orders, o, j);
      }
    }
  }

  lemma FinalOrderFacts(req: CreateRequest, items: seq<Item>, total: nat, plan: Option<(int, nat)>)
    ensures var o := FinalOrder(req, items, total, plan);
            && OrderOk(o) && o.number == req.number && o.items == items && o.total == total && o.status != Cancelled
            && o.slot == (if plan.Some? then Some(plan.value.1) else None)
  {
  }

  lemma AppendKeepsOrders(orders: seq<Order>, o: Order, cancels: seq<nat>)
    requires OrdersOk(orders) && CancelsOk(orders, cancels) && OrderOk(o) && o.status != Cancelled
    requires forall k :: 0 <= k < |orders| ==> orders[k].number != o.number
    ensures OrdersOk(orders + [o]) && CancelsOk(orders + [o], cancels) && OrdersLater(orders, orders + [o])
  {
  }

  lemma NewKeyKeeps(orders: seq<Order>, o: Order, keys: map<string, KeyRecord>, key: string, payload: Payload, now: int)
    requires KeysOk(orders, keys) && ClaimKey(keys, key, payload, now).Ok?
    requires ClaimKey(keys, key, payload, now).value.1 == None
    ensures var keys' := ClaimKey(keys, key, payload, now).value.0;
            var r := ReceiptOf(|orders|, o);
            && KeysOk(orders + [o], keys'[key := keys'[key].(snapshot := Some(r))])
            && KeysLater(keys, keys'[key := keys'[key].(snapshot := Some(r))])
            && key !in keys
  {
  }

  lemma ReplayKeeps(s: Store, key: string, payload: Payload, now: int)
    requires Valid(s) && ClaimKey(s.keys, key, payload, now).Ok? && ClaimKey(s.keys, key, payload, now).value.1.Some?
    ensures Keeps(s, s.(keys := ClaimKey(s.keys, key, payload, now).value.0))
  {
  }

  lemma SpendKeeps(coupons: map<int, Coupon>, req: CreateRequest, items: seq<Item>, id: nat)
    requires Charge(coupons, req.payload.couponId, req.user, items).Ok?
    ensures CouponsLater(coupons, SpendCoupon(coupons, req, id))
  {
  }

  /** A fresh creation, stage by stage. */
  ghost predicate Stages(s: Store, shop: Shop, req: CreateRequest, keys: map<string, KeyRecord>, slots: seq<Slot>,
                         plan: Option<(int, nat)>, products: map<int, Product>, items: seq<Item>, total: int) {
    && ClaimKey(s.keys, req.key, req.payload, req.now) == Ok((keys, None)) && req.key in keys
    && PlanSlot(s.slots, shop, req) == Ok((slots, plan))
    && TakeLines(s.products, s.options, [], req.payload.lines) == Ok((products, items))
    && Charge(s.coupons, req.payload.couponId, req.user, items) == Ok(total)
    && RowAccepted(s, req, total) && total >= 0
  }

  /** A successful creation is either a replay of a stored answer or went through all stages. */
  lemma CreateStages(s: Store, shop: Shop, req: CreateRequest)
    returns (replay: bool, keys: map<string, KeyRecord>, slots: seq<Slot>, plan: Option<(int, nat)>,
             products: map<int, Product>, items: seq<Item>, total: int)
    requires Create(s, shop, req).Ok?
    ensures replay ==> ClaimKey(s.keys, req.key, req.payload, req.now) == Ok((keys, Some(Create(s, shop, req).value.1)))
    ensures replay ==> Create(s, shop, req).value.0 == s.(keys := keys)
    ensures !replay ==> Stages(s, shop, req, keys, slots, plan, products, items, total)
    ensures !replay ==> Create(s, shop, req) == Ok(Place(s, req, keys, slots, plan, products, items, total))
  {
    hide Precheck, PlanSlot, TakeLines, Charge, Place;
    var (ks, snapshot) := ClaimKey(s.keys, req.key, req.payload, req.now).value;
    replay, keys := snapshot.Some?, ks;
    slots, plan, products, items, total := [], None, map[], [], 0;
    if !replay {
      slots, plan := PlanSlot(s.slots, shop, req).value.0, PlanSlot(s.slots, shop, req).value.1;
      products := TakeLines(s.products, s.options, [], req.payload.lines).value.0;
      items := TakeLines(s.products, s.options, [], req.payload.lines).value.1;
      total := Charge(s.coupons, req.payload.couponId, req.user, items).value;
    }
  }

  lemma PlaceKeepsTables(s: Store, shop: Shop, req: CreateRequest, keys: map<string, KeyRecord>, slots: seq<Slot>,
                         plan: Option<(int, nat)>, products: map<int, Product>, items: seq<Item>, total: nat)
    requires Valid(s) && Stages(s, shop, req, keys, slots, plan, products, items, total)
    ensures var s' := Place(s, req, keys, slots, plan, products, items, total).0;
            Valid(s') && OrdersLater(s.orders, s'.orders) && KeysLater(s.keys, s'.keys)
  {
    hide ClaimKey, PlanSlot, TakeLines, Charge, FinalOrder;
    var o := FinalOrder(req, items, total, plan);
    FinalOrderFacts(req, items, total, plan);
    AppendKeepsOrders(s.orders, o, s.cancels);
    PlannedSlotKeeps(s.orders, s.slots, shop, req, o, slots, plan);
    PaymentsStay(s.orders, s.orders + [o], s.payments);
    NewKeyKeeps(s.orders, o, s.keys, req.key, req.payload, req.now);
  }

  lemma PlaceKeepsStock(s: Store, shop: Shop, req: CreateRequest, keys: map<string, KeyRecord>, slots: seq<Slot>,
                        plan: Option<(int, nat)>, products: map<int, Product>, items: seq<Item>, total: nat, id: int)
    requires Valid(s) && Stages(s, shop, req, keys, slots, plan, products, items, total)
    ensures var s' := Place(s, req, keys, slots, plan, products, items, total).0;
            s'.products.Keys == s.products.Keys && (id in s.products ==> Accounted(s', id) == Accounted(s, id))
  {
    hide ClaimKey, PlanSlot, TakeLines, Charge, FinalOrder, SpendCoupon;
    var o := FinalOrder(req, items, total, plan);
    FinalOrderFacts(req, items, total, plan);
    TakesDemand(s.products, s.options, [], req.payload.lines, products, items, id);
    OutstandingAppend(s.orders, s.cancels, o, id);
  }

  lemma CreateKeeps(s: Store, shop: Shop, req: CreateRequest)
    requires Valid(s) && Create(s, shop, req).Ok?
    ensures Keeps(s, Create(s, shop, req).value.0)
  {
    hide Create, ClaimKey, PlanSlot, TakeLines, Charge, SpendCoupon, Valid;
    var replay, keys, slots, plan, products, items, total := CreateStages(s, shop, req);
    if replay {
      ReplayKeeps(s, req.key, req.payload, req.now);
    } else {
      PlaceKeepsTables(s, shop, req, keys, slots, plan, products, items, total);
      SpendKeeps(s.coupons, req, items, |s.orders|);
      forall id
        ensures Create(s, shop, req).value.0.products.Keys == s.products.Keys
        ensures id in s.products ==> Accounted(Create(s, shop, req).value.0, id) == Accounted(s, id)
      {
        PlaceKeepsStock(s, shop, req, keys, slots, plan, products, items, total, id);
      }
    }
  }

  // ---------- cancellation ----------

  lemma ReleaseKeeps(orders: seq<Order>, slots: seq<Slot>, k: nat, o: Order)
    requires SlotsOk(orders, slots) && k < |orders| && o.slot.None?
    ensures SlotsOk(orders[k := o], Release(slots, orders[k].slot))
  {
    forall j | 0 <= j < |slots|
      ensures Release(slots, orders[k].slot)[j].reserved == Holding(orders[k := o], j) <= slots[j].capacity
    {
      HoldingUpdate(orders, k, o, j);
      if orders[k].slot == Some(j) {
        HoldingPositive(orders, k, j);
      }
    }
  }

  lemma CancelKeeps(s: Store, k: nat)
    requires Valid(s)
    ensures Keeps(s, Cancel(s, k).0)
  {
    hide Restored, Release, PaymentsOk, KeysOk, SlotsOk, Units;
    if k < |s.orders| && Cancellable(s.orders[k]) {
      var s' := Cancel(s, k).0;
      var o := s'.orders[k];
      assert OrderOk(s.orders[k]);
      UpdateLater(s.orders, k, o);
      ReleaseKeeps(s.orders, s.slots, k, o);
      PaymentsStay(s.orders, s'.orders, s.payments);
      KeysStay(s.orders, s'.orders, s.keys);
      assert k !in s.cancels;
      forall id | id in s.products
        ensures Accounted(s', id) == Accounted(s, id)
      {
        OutstandingSame(s.orders, s'.orders, s'.cancels, id);
        OutstandingCancel(s.orders, s.cancels, k, id);
      }
    }
  }

  lemma KeepsTransitive(a: Store, b: Store, c: Store)
    requires Keeps(a, b) && Keeps(b, c)
    ensures Keeps(a, c)
  {
  }

  lemma {:induction false} CancelAllKeeps(s: Store, cancelled: seq<nat>, ids: seq<nat>)
    requires Valid(s)
    ensures Keeps(s, CancelAll(s, cancelled, ids).0)
    decreases ids
  {
    hide Cancel, Valid, Later;
    if ids == [] {
      LaterReflexive(s);
    } else {
      var (s', ok) := Cancel(s, ids[0]);
      CancelKeeps(s, ids[0]);
      var cancelled' := if ok then cancelled + [ids[0]] else cancelled;
      CancelAllKeeps(s', cancelled', ids[1..]);
      KeepsTransitive(s, s', CancelAll(s', cancelled', ids[1..]).0);
    }
  }

  // ---------- payment ----------

  lemma WakeKeeps(orders: seq<Order>, jobs: seq<Job>, k: nat, now: int)
    requires JobsOk(orders, jobs) && k < |orders|
    ensures JobsOk(orders, WakeJob(jobs, k, now))
  {
  }

  /** An order that becomes paid, whatever it was, and keeps its slot. */
  lemma SettleKeeps(s: Store, k: nat, o: Order)
    requires Valid(s) && k < |s.orders|
    requires o == s.orders[k].(status := Paid, payment := Settled, channel := o.channel)
    ensures OrdersOk(s.orders[k := o]) && SlotsOk(s.orders[k := o], s.slots) && CancelsOk(s.orders[k := o], s.cancels)
    ensures OrdersLater(s.orders, s.orders[k := o])
    ensures forall id :: Outstanding(s.orders[k := o], s.cancels, id) == Outstanding(s.orders, s.cancels, id)
  {
    assert OrderOk(s.orders[k]);
    UpdateLater(s.orders, k, o);
    forall j
      ensures 0 <= j < |s.slots| ==> Holding(s.orders[k := o], j) == Holding(s.orders, j)
    {
      if 0 <= j < |s.slots| {
        HoldingSame(s.orders, s.orders[k := o], j);
      }
    }
    forall id
      ensures Outstanding(s.orders[k := o], s.cancels, id) == Outstanding(s.orders, s.cancels, id)
    {
      OutstandingSame(s.orders, s.orders[k := o], s.cancels, id);
    }
  }

  lemma RecordKeeps(orders: seq<Order>, payments: seq<PaymentRecord>, n: Notification, k: nat)
    requires PaymentsOk(orders, payments)
    requires k < |orders| && orders[k].payment == Settled
    ensures PaymentsOk(orders, Recorded(payments, n, k)) && PaymentsLater(payments, Recorded(payments, n, k))
  {
  }

  lemma NotifyKeeps(s: Store, n: Notification, now: int)
    requires Valid(s) && Notify(s, n, now).Ok?
    ensures Keeps(s, Notify(s, n, now).value)
  {
    hide WakeJob, Recorded, Orders.FindOrder, OrdersOk, SlotsOk, CancelsOk, PaymentsOk, KeysOk, JobsOk, PaymentsLater;
    var s' := Notify(s, n, now).value;
    var k := Orders.FindOrder(s.orders, n.number).value;
    SettleKeeps(s, k, s'.orders[k]);
    PaymentsStay(s.orders, s'.orders, s.payments);
    RecordKeeps(s'.orders, s.payments, n, k);
    KeysStay(s.orders, s'.orders, s.keys);
    JobsStay(s.orders, s'.orders, s.jobs);
    WakeKeeps(s'.orders, s.jobs, k, now);
  }

  lemma JobsStay(orders: seq<Order>, orders': seq<Order>, jobs: seq<Job>)
    requires JobsOk(orders, jobs) && |orders| <= |orders'|
    ensures JobsOk(orders', jobs)
  {
  }

  lemma AcquireFacts(payments: seq<PaymentRecord>, req: MatchRequest, payments': seq<PaymentRecord>, i: nat)
    requires Acquire(payments, req) == Ok((payments', i))
    ensures |payments| <= |payments'| && i < |payments'|
    ensures |payments'| == |payments| || (i == |payments| && |payments'| == i + 1)
    ensures forall j :: 0 <= j < |payments| && j != i ==> payments'[j] == payments[j]
    ensures i < |payments| ==> payments[i].match_ == Unmatched && payments'[i].txn == payments[i].txn
    ensures i == |payments| && payments'[i].txn.Some? ==>
      forall j :: 0 <= j < |payments| ==> payments[j].txn != payments'[i].txn
    ensures payments'[i].match_ == Unmatched
  {
  }

  lemma MatchRecordKeeps(orders: seq<Order>, orders': seq<Order>, payments: seq<PaymentRecord>, req: MatchRequest,
                         payments': seq<PaymentRecord>, i: nat, k: nat, status: MatchStatus, admin: int, qr: string)
    requires PaymentsOk(orders, payments) && OrdersLater(orders, orders') && Acquire(payments, req) == Ok((payments', i))
    requires k < |orders| && orders[k].payment == Pending && orders'[k].payment == Settled
    requires status == AutoMatched || status == ManualMatched
    ensures var p := payments'[i].(match_ := status, order := Some(k), matchedBy := Some(admin), qrSession := Some(qr));
            PaymentsOk(orders', payments'[i := p]) && PaymentsLater(payments, payments'[i := p])
  {
    hide Acquire;
    AcquireFacts(payments, req, payments', i);
    PaymentsStay(orders, orders', payments);
    assert OrderLater(orders[k], orders'[k]);
    var p := payments'[i].(match_ := status, order := Some(k), matchedBy := Some(admin), qrSession := Some(qr));
    var after := payments'[i := p];
    forall j | 0 <= j < |payments| && payments[j].matchedBy.Some?
      ensures payments[j].order != Some(k)
    {
      assert RecordOk(payments[j], orders);
    }
    forall j | 0 <= j < |after|
      ensures RecordOk(after[j], orders')
    {
      if j != i {
        assert after[j] == payments[j];
      }
    }
    forall a, b | 0 <= a < b < |after|
      ensures after[a].txn.Some? ==> after[a].txn != after[b].txn
      ensures after[a].matchedBy.Some? && after[b].matchedBy.Some? ==> after[a].order != after[b].order
    {
      if a != i {
        assert after[a] == payments[a];
      }
      if b != i {
        assert after[b] == payments[b];
      }
    }
  }

  lemma MatchKeeps(s: Store, req: MatchRequest, now: int)
    requires Valid(s) && Match(s, req, now).Ok?
    ensures Keeps(s, Match(s, req, now).value.0)
  {
    hide WakeJob, Acquire, PickOrder, OrdersOk, SlotsOk, CancelsOk, PaymentsOk, KeysOk, JobsOk, PaymentsLater;
    var (s', k) := Match(s, req, now).value;
    var (payments', i) := Acquire(s.payments, req).value;
    SettleKeeps(s, k, s'.orders[k]);
    MatchRecordKeeps(s.orders, s'.orders, s.payments, req, payments', i, k,
                     if req.force.Some? then ManualMatched else AutoMatched, req.admin, req.qrSession);
    KeysStay(s.orders, s'.orders, s.keys);
    JobsStay(s.orders, s'.orders, s.jobs);
    WakeKeeps(s'.orders, s.jobs, k, now);
  }

  // ---------- the other steps ----------

  lemma ActivateKeeps(s: Store, shop: Shop, now: int)
    requires Valid(s)
    ensures Keeps(s, Activate(s, shop, now))
  {
    hide PaymentsOk, KeysOk, JobsOk;
    var s' := Activate(s, shop, now);
    forall k | 0 <= k < |s.orders|
      ensures OrderLater(s.orders[k], s'.orders[k]) && OrderOk(s'.orders[k])
    {
      assert OrderOk(s.orders[k]);
    }
    forall j | 0 <= j < |s.slots|
      ensures Holding(s'.orders, j) == Holding(s.orders, j)
    {
      HoldingSame(s.orders, s'.orders, j);
    }
    forall id
      ensures Outstanding(s'.orders, s.cancels, id) == Outstanding(s.orders, s.cancels, id)
    {
      OutstandingSame(s.orders, s'.orders, s.cancels, id);
    }
    PaymentsStay(s.orders, s'.orders, s.payments);
    KeysStay(s.orders, s'.orders, s.keys);
    JobsStay(s.orders, s'.orders, s.jobs);
  }

  lemma SessionKeeps(s: Store, existing: Option<string>, token: string, now: int, ttlMinutes: int)
    requires Valid(s) && IssueSession(s.keys, existing, token, now, ttlMinutes).Some?
    ensures Keeps(s, s.(keys := IssueSession(s.keys, existing, token, now, ttlMinutes).value.0))
  {
  }

  lemma SwitchKeeps(s: Store, id: int, inventory: Inventory)
    requires Valid(s) && SetInventory(s, id, inventory).Some?
    ensures Keeps(s, SetInventory(s, id, inventory).value)
  {
  }

  /** A print worker or recovery changes job rows but not which order each belongs to. */
  lemma JobsOnlyKeeps(s: Store, jobs: seq<Job>)
    requires Valid(s) && |jobs| == |s.jobs| && forall j :: 0 <= j < |jobs| ==> jobs[j].order == s.jobs[j].order
    ensures Keeps(s, s.(jobs := jobs))
  {
  }
}
