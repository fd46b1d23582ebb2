/** What every committed state of the order engine satisfies, table by table. */
module Invariants {
  import opened Wrappers
  import opened Tables
  import opened Sorting
  import opened Inventories

  // ---------- slots ----------

  function Holds(o: Order, j: nat): nat {
    if o.slot == Some(j) then 1 else 0
  }

  /** Number of orders holding a slot. */
  function Holding(orders: seq<Order>, j: nat): nat {
    if orders == [] then 0 else Holding(orders[..|orders| - 1], j) + Holds(orders[|orders| - 1], j)
  }

  ghost predicate SlotsOk(orders: seq<Order>, slots: seq<Slot>) {
    && (forall j :: 0 <= j < |slots| ==> slots[j].reserved == Holding(orders, j) <= slots[j].capacity)
    && (forall k :: 0 <= k < |orders| && orders[k].slot.Some? ==> orders[k].slot.value < |slots|)
    && (forall i, j :: 0 <= i < j < |slots| ==> slots[i].start != slots[j].start)
  }

  lemma {:induction false} HoldingUpdate(orders: seq<Order>, k: nat, o: Order, j: nat)
    requires k < |orders|
    ensures Holding(orders[k := o], j) + Holds(orders[k], j) == Holding(orders, j) + Holds(o, j)
  {
    var n := |orders| - 1;
    if k < n {
      HoldingUpdate(orders[..n], k, o, j);
      assert orders[k := o][..n] == orders[..n][k := o];
    } else {
      assert orders[k := o][..n] == orders[..n];
    }
  }

  lemma HoldingAppend(orders: seq<Order>, o: Order, j: nat)
    ensures Holding(orders + [o], j) == Holding(orders, j) + Holds(o, j)
  {
  }

  lemma {:induction false} HoldingSame(orders: seq<Order>, orders': seq<Order>, j: nat)
    requires |orders| == |orders'| && forall k :: 0 <= k < |orders| ==> orders[k].slot == orders'[k].slot
    ensures Holding(orders, j) == Holding(orders', j)
  {
    if orders != [] {
      HoldingSame(orders[..|orders| - 1], orders'[..|orders| - 1], j);
    }
  }

  /** An order holding a slot is counted, so releasing it never finds the count at zero. */
  lemma {:induction false} HoldingPositive(orders: seq<Order>, k: nat, j: nat)
    requires k < |orders| && orders[k].slot == Some(j)
    ensures Holding(orders, j) > 0
  {
    if k < |orders| - 1 {
      HoldingPositive(orders[..|orders| - 1], k, j);
    }
  }

  lemma {:induction false} HoldingNone(orders: seq<Order>, j: nat)
    requires forall k :: 0 <= k < |orders| ==> orders[k].slot != Some(j)
    ensures Holding(orders, j) == 0
  {
    if orders != [] {
      HoldingNone(orders[..|orders| - 1], j);
    }
  }

  // ---------- stock ----------

  /** Units of a product in orders that were never auto-cancelled. */
  function Outstanding(orders: seq<Order>, cancels: seq<nat>, id: int): nat {
    if orders == [] then 0
    else
      var n := |orders| - 1;
      Outstanding(orders[..n], cancels, id) + (if n in cancels then 0 else Units(orders[n].items, id))
  }

  /** What is on the shelf together with what is in outstanding orders. */
  function Accounted(s: Store, id: int): nat
    requires id in s.products
  {
    s.products[id].stock + Outstanding(s.orders, s.cancels, id)
  }

  lemma OutstandingAppend(orders: seq<Order>, cancels: seq<nat>, o: Order, id: int)
    requires |orders| !in cancels
    ensures Outstanding(orders + [o], cancels, id) == Outstanding(orders, cancels, id) + Units(o.items, id)
  {
  }

  lemma {:induction false} OutstandingSame(orders: seq<Order>, orders': seq<Order>, cancels: seq<nat>, id: int)
    requires |orders| == |orders'| && forall k :: 0 <= k < |orders| ==> orders[k].items == orders'[k].items
    ensures Outstanding(orders, cancels, id) == Outstanding(orders', cancels, id)
  {
    if orders != [] {
      OutstandingSame(orders[..|orders| - 1], orders'[..|orders| - 1], cancels, id);
    }
  }

  lemma {:induction false} OutstandingBeyond(orders: seq<Order>, cancels: seq<nat>, k: nat, id: int)
    requires k >= |orders|
    ensures Outstanding(orders, cancels + [k], id) == Outstanding(orders, cancels, id)
  {
    if orders != [] {
      OutstandingBeyond(orders[..|orders| - 1], cancels, k, id);
    }
  }

  lemma {:induction false} OutstandingCancel(orders: seq<Order>, cancels: seq<nat>, k: nat, id: int)
    requires k < |orders| && k !in cancels
    ensures Outstanding(orders, cancels + [k], id) + Units(orders[k].items, id) == Outstanding(orders, cancels, id)
  {
    var n := |orders| - 1;
    if k < n {
      OutstandingCancel(orders[..n], cancels, k, id);
    } else {
      OutstandingBeyond(orders[..n], cancels, k, id);
    }
  }

  // ---------- orders ----------

  /** Paid exactly when the money is in, scheduled exactly while a slot is held, cancelled only without one. */
  ghost predicate OrderOk(o: Order) {
    && (o.payment == Settled <==> o.status == Paid || o.status == InProduction)
    && (o.isScheduled <==> o.slot.Some?)
    && (o.status == Cancelled ==> o.slot.None?)
  }

  ghost predicate OrdersOk(orders: seq<Order>) {
    && (forall k :: 0 <= k < |orders| ==> OrderOk(orders[k]))
    && (forall i, k :: 0 <= i < k < |orders| ==> orders[i].number != orders[k].number)
  }

  /** The auto-cancel audit rows name each order at most once, and no waiting order. */
  ghost predicate CancelsOk(orders: seq<Order>, cancels: seq<nat>) {
    && NoDups(cancels)
    && (forall k :: k in cancels ==> k < |orders| && orders[k].status != PendingPayment && orders[k].slot.None?)
    && (forall k :: 0 <= k < |orders| && orders[k].status == Cancelled ==> k in cancels)
  }

  // ---------- payments ----------

  predicate IsMatched(p: PaymentRecord) {
    p.match_ == AutoMatched || p.match_ == ManualMatched
  }

  /** A matched record points to an order that is paid. */
  ghost predicate RecordOk(p: PaymentRecord, orders: seq<Order>) {
    && (IsMatched(p) ==> p.order.Some? && p.order.value < |orders| && orders[p.order.value].payment == Settled)
    && (p.matchedBy.Some? ==> IsMatched(p))
  }

  ghost predicate PaymentsOk(orders: seq<Order>, payments: seq<PaymentRecord>) {
    && (forall i :: 0 <= i < |payments| ==> RecordOk(payments[i], orders))
    && (forall i, j :: 0 <= i < j < |payments| && payments[i].txn.Some? ==> payments[i].txn != payments[j].txn)
    && (forall i, j :: 0 <= i < j < |payments| && payments[i].matchedBy.Some? && payments[j].matchedBy.Some? ==>
         payments[i].order != payments[j].order)
  }

  // ---------- keys ----------

  /** An order-creation record carries the receipt of an existing order; a guest session carries neither hash nor receipt. */
  ghost predicate KeyOk(r: KeyRecord, orders: seq<Order>) {
    && (r.scope == CreateScope ==>
         && r.hash.Some? && r.snapshot.Some?
         && r.snapshot.value.orderId < |orders|
         && orders[r.snapshot.value.orderId].number == r.snapshot.value.number
         && orders[r.snapshot.value.orderId].total == r.snapshot.value.total
         && orders[r.snapshot.value.orderId].items == r.snapshot.value.items)
    && (r.scope == GuestScope ==> r.hash.None? && r.snapshot.None?)
  }

  ghost predicate KeysOk(orders: seq<Order>, keys: map<string, KeyRecord>) {
    && (forall key :: key in keys ==> KeyOk(keys[key], orders))
    && (forall a, b :: a in keys && b in keys && a != b && keys[a].scope == CreateScope && keys[b].scope == CreateScope ==>
         keys[a].snapshot.value.orderId != keys[b].snapshot.value.orderId)
  }

  // ---------- print jobs ----------

  ghost predicate JobsOk(orders: seq<Order>, jobs: seq<Job>) {
    && (forall j :: 0 <= j < |jobs| ==> jobs[j].order < |orders|)
    && (forall i, j :: 0 <= i < j < |jobs| ==> jobs[i].order != jobs[j].order)
  }

  ghost predicate Valid(s: Store) {
    && OrdersOk(s.orders)
    && SlotsOk(s.orders, s.slots)
    && CancelsOk(s.orders, s.cancels)
    && PaymentsOk(s.orders, s.payments)
    && KeysOk(s.orders, s.keys)
    && JobsOk(s.orders, s.jobs)
    && (forall i :: 0 <= i < |s.effects| ==> s.effects[i] < |s.orders|)
  }

  // ---------- what never goes back ----------

  /** The order keeps its identity and contents; payment and leaving the waiting state are final. */
  ghost predicate OrderLater(o: Order, o': Order) {
    && o'.number == o.number && o'.items == o.items && o'.total == o.total && o'.user == o.user
    && o'.guest == o.guest && o'.createdAt == o.createdAt && o'.couponId == o.couponId
    && (o.payment == Settled ==> o'.payment == Settled)
    && (o.status != PendingPayment ==> o'.status != PendingPayment)
  }

  ghost predicate OrdersLater(orders: seq<Order>, orders': seq<Order>) {
    |orders| <= |orders'| && forall k :: 0 <= k < |orders| ==> OrderLater(orders[k], orders'[k])
  }

  /** Matched records are immutable. */
  ghost predicate PaymentsLater(payments: seq<PaymentRecord>, payments': seq<PaymentRecord>) {
    && |payments| <= |payments'|
    && forall i :: 0 <= i < |payments| ==>
         payments'[i].txn == payments[i].txn && (IsMatched(payments[i]) ==> payments'[i] == payments[i])
  }

  /** A key never changes its scope, nor an answered key its hash or answer. */
  ghost predicate KeysLater(keys: map<string, KeyRecord>, keys': map<string, KeyRecord>) {
    forall key :: key in keys ==>
      && key in keys' && keys'[key].scope == keys[key].scope
      && (keys[key].snapshot.Some? ==> keys'[key].snapshot == keys[key].snapshot && keys'[key].hash == keys[key].hash)
  }

  /** A spent coupon stays spent, in the same order. */
  ghost predicate CouponsLater(coupons: map<int, Coupon>, coupons': map<int, Coupon>) {
    && coupons.Keys == coupons'.Keys
    && forall c :: c in coupons && coupons[c].status != Active ==> coupons'[c] == coupons[c]
  }

  ghost predicate Later(s: Store, s': Store) {
    && OrdersLater(s.orders, s'.orders)
    && PaymentsLater(s.payments, s'.payments)
    && KeysLater(s.keys, s'.keys)
    && CouponsLater(s.coupons, s'.coupons)
    && s.cancels <= s'.cancels && s.effects <= s'.effects
    && s.products.Keys == s'.products.Keys
    // an order whose payment is settled is not auto-cancelled afterwards
    && (forall k :: 0 <= k < |s.orders| && s.orders[k].payment == Settled && k in s'.cancels ==> k in s.cancels)
  }

  lemma LaterReflexive(s: Store)
    ensures Later(s, s)
  {
  }
}
