/** Creation and cancellation of orders (app/services/orders.py, app/services/guest.py). */
module Orders {
  import opened Wrappers
  import opened Tables
  import opened Sorting
  import opened Inventories
  import opened Reservations
  import opened Pricing

  // ---------- idempotency keys and guest sessions ----------

  const KEY_LIFETIME: int := DAY

  /** Inserts or locks the key's record; a stored snapshot is the answer to a replay. */
  function ClaimKey(keys: map<string, KeyRecord>, key: string, payload: Payload, now: int)
    : Result<(map<string, KeyRecord>, Option<Receipt>), OrderError>
  {
    var expiry := Some(now + KEY_LIFETIME);
    var record := if key in keys then keys[key] else KeyRecord(CreateScope, Some(payload), None, expiry);
    if record.scope != CreateScope then Err(KeyScopeMismatch)
    else if record.hash.Some? && record.hash.value != payload then Err(KeyReused)
    else
      var hash := if record.hash.None? then Some(payload) else record.hash;
      Ok((keys[key := record.(hash := hash, expiry := expiry)], record.snapshot))
  }

  method EnsureIdempotency(db: Session, key: string, payload: Payload, now: int)
    returns (r: Result<Option<Receipt>, OrderError>)
    modifies db
    ensures match ClaimKey(old(db.keys), key, payload, now)
      case Err(e) => r == Err(e)
      case Ok((keys, snapshot)) => r == Ok(snapshot) && db.View() == old(db.View()).(keys := keys)
  {
    var expiry := Some(now + KEY_LIFETIME);
    if key !in db.keys {
      db.keys := db.keys[key := KeyRecord(CreateScope, Some(payload), None, expiry)];
    }
    var record := db.keys[key];
    if record.scope != CreateScope {
      return Err(KeyScopeMismatch);
    }
    if record.hash.Some? && record.hash.value != payload {
      return Err(KeyReused);
    }
    if record.hash.None? {
      record := record.(hash := Some(payload));
    }
    record := record.(expiry := expiry);
    db.keys := db.keys[key := record];
    return Ok(record.snapshot);
  }

  predicate Expired(expiry: Option<int>, now: int) {
    expiry.Some? && expiry.value < now
  }

  function GuestProblem(keys: map<string, KeyRecord>, guest: string, now: int): Option<OrderError> {
    if guest !in keys || keys[guest].scope != GuestScope then Some(GuestInvalid)
    else if Expired(keys[guest].expiry, now) then Some(GuestExpired)
    else None
  }

  /** Extends a live session or inserts a record for the fresh token; None when the token is taken. */
  function IssueSession(keys: map<string, KeyRecord>, existing: Option<string>, token: string, now: int, ttlMinutes: int)
    : Option<(map<string, KeyRecord>, string)>
  {
    var expiry := Some(now + Max(ttlMinutes, 1) * MINUTE);
    if existing.Some? && existing.value in keys && keys[existing.value].scope == GuestScope &&
       !Expired(keys[existing.value].expiry, now) then
      Some((keys[existing.value := keys[existing.value].(expiry := expiry)], existing.value))
    else if token in keys then None
    else Some((keys[token := KeyRecord(GuestScope, None, None, expiry)], token))
  }

  method IssueGuestSession(db: Session, existing: Option<string>, token: string, now: int, ttlMinutes: int)
    returns (r: Option<string>)
    modifies db
    ensures match IssueSession(old(db.keys), existing, token, now, ttlMinutes)
      case None => r == None && db.View() == old(db.View())
      case Some((keys, id)) => r == Some(id) && db.View() == old(db.View()).(keys := keys)
  {
    var expiry := Some(now + Max(ttlMinutes, 1) * MINUTE);
    if existing.Some? && existing.value in db.keys {
      var record := db.keys[existing.value];
      if record.scope == GuestScope && !Expired(record.expiry, now) {
        db.keys := db.keys[existing.value := record.(expiry := expiry)];
        return existing;
      }
    }
    if token in db.keys {
      return None;
    }
    db.keys := db.keys[token := KeyRecord(GuestScope, None, None, expiry)];
    return Some(token);
  }

  // ---------- the deduction loop ----------

  /** A product row after `quantity` units were taken. */
  function Deduct(p: Product, quantity: nat): Product
    requires quantity <= p.stock
  {
    p.(stock := p.stock - quantity, inventory := if p.stock == quantity then SoldOut else p.inventory)
  }

  function TakeLines(products: map<int, Product>, options: map<int, SpecOption>, done: seq<Item>, lines: seq<Line>)
    : Result<(map<int, Product>, seq<Item>), OrderError>
    decreases lines
  {
    if lines == [] then Ok((products, done))
    else
      match QuoteLine(products, options, lines[0])
      case Err(e) => Err(e)
      case Ok(item) =>
        var id := lines[0].productId;
        TakeLines(products[id := Deduct(products[id], lines[0].quantity)], options, done + [item], lines[1..])
  }

  /** Stock is deducted while the lines are priced; a failure leaves it to the caller to roll back. */
  method DeductLines(db: Session, lines: seq<Line>) returns (r: Result<(seq<Item>, int), OrderError>)
    modifies db
    ensures match TakeLines(old(db.products), old(db.options), [], lines)
      case Err(e) => r == Err(e)
      case Ok((products, items)) =>
        r == Ok((items, Subtotal(items))) && db.View() == old(db.View()).(products := products)
  {
    var items, total := [], 0;
    for i := 0 to |lines|
      invariant TakeLines(old(db.products), db.options, [], lines) ==
                TakeLines(db.products, db.options, items, lines[i..])
      invariant db.View() == old(db.View()).(products := db.products)
      invariant total == Subtotal(items)
    {
      assert lines[i..][1..] == lines[i + 1..];
      var line := lines[i];
      if line.productId !in db.products {
        return Err(ProductNotFound(line.productId));
      }
      var p := db.products[line.productId];
      if !p.active {
        return Err(ProductInactive(line.productId));
      }
      if p.inventory != InStock {
        return Err(ProductSoldOut(line.productId));
      }
      if p.stock < line.quantity {
        return Err(ProductSoldOut(line.productId));
      }
      var modifiers := PickSpecOptions(db.options, p.groups, line.options);
      if modifiers.Err? {
        return Err(modifiers.error);
      }
      ghost var before := db.products;
      db.products := db.products[line.productId := p.(stock := p.stock - line.quantity)];
      if db.products[line.productId].stock == 0 {
        db.products := db.products[line.productId := db.products[line.productId].(inventory := SoldOut)];
      }
      assert db.products == before[line.productId := Deduct(p, line.quantity)];
      var item := Item(line.productId, line.quantity, p.basePrice + modifiers.value);
      assert (items + [item])[..|items|] == items;
      items, total := items + [item], total + item.unitPrice * item.quantity;
    }
    return Ok((items, total));
  }

  // ---------- creation ----------

  /** What the point of sale adds to a creation, and the channels it settles at once. */
  datatype PosTerminal = PosTerminal(channel: string, printJob: bool)

  predicate Immediate(channel: string) { channel == "cash" || channel == "pos_card" }

  /** A creation request with the clock and the random order number of that moment. */
  datatype CreateRequest = CreateRequest(
    key: string, payload: Payload, user: Option<int>, pos: Option<PosTerminal>, now: int, number: string)

  predicate Blank(s: string) {
    forall i :: 0 <= i < |s| ==> s[i] in {' ', '\t', '\n', '\r'}
  }

  function Precheck(keys: map<string, KeyRecord>, req: CreateRequest): Option<OrderError> {
    if Blank(req.key) then Some(BlankKey)
    else if req.user.None? && req.payload.guest.None? then Some(GuestRequired)
    else if req.payload.orderType == Delivery && req.payload.address.None? then Some(AddressRequired)
    else if req.payload.guest.Some? then GuestProblem(keys, req.payload.guest.value, req.now)
    else None
  }

  /** The slots and the reservation of a request that may ask for a time. */
  function PlanSlot(slots: seq<Slot>, shop: Shop, req: CreateRequest)
    : Result<(seq<Slot>, Option<(int, nat)>), OrderError>
  {
    if req.payload.scheduledAt.None? then Ok((slots, None))
    else if req.payload.orderType != Pickup then Err(OnlyPickupReserved)
    else
      match PlanTime(shop, req.now, req.payload.scheduledAt.value)
      case Err(e) => Err(CannotReserve(e))
      case Ok(plan) =>
        match Reserve(slots, plan.slotStart, plan.slotEnd, shop.slotCapacity)
        case Err(e) => Err(CannotReserve(e))
        case Ok((slots', j)) => Ok((slots', Some((plan.scheduledAt, j))))
  }

  function FindOrder(orders: seq<Order>, number: string): (r: Option<nat>)
    ensures r.Some? ==> r.value < |orders| && orders[r.value].number == number
    ensures r.None? ==> forall k :: 0 <= k < |orders| ==> orders[k].number != number
  {
    First(orders, (o: Order) => o.number == number)
  }

  /** The columns' constraints: no negative total, a known coupon, a new order number. */
  predicate RowAccepted(s: Store, req: CreateRequest, total: int) {
    && total >= 0
    && (req.payload.couponId.Some? ==> req.payload.couponId.value in s.coupons)
    && FindOrder(s.orders, req.number).None?
  }

  function NewOrder(req: CreateRequest, items: seq<Item>, total: nat, plan: Option<(int, nat)>): Order {
    Order(
      req.number, req.user, if req.user.Some? then None else req.payload.guest, items, total,
      PendingPayment, Pending, None, req.payload.orderType,
      plan.Some?, if plan.Some? then Some(plan.value.0) else None, if plan.Some? then Some(plan.value.1) else None,
      req.payload.couponId, req.now)
  }

  /** The point of sale's hook: cash and card settle the order on the spot. */
  function AtCounter(o: Order, pos: PosTerminal): Order {
    var o := o.(channel := Some(pos.channel));
    if Immediate(pos.channel) then o.(payment := Settled, status := Paid) else o
  }

  function FinalOrder(req: CreateRequest, items: seq<Item>, total: nat, plan: Option<(int, nat)>): Order {
    var o := NewOrder(req, items, total, plan);
    if req.pos.Some? then AtCounter(o, req.pos.value) else o
  }

  function SpendCoupon(coupons: map<int, Coupon>, req: CreateRequest, orderId: nat): map<int, Coupon> {
    if Redeems(req.payload.couponId, req.user) && req.payload.couponId.value in coupons then
      var id := req.payload.couponId.value;
      coupons[id := coupons[id].(status := Used, usedIn := Some(orderId))]
    else coupons
  }

  function ReceiptOf(orderId: nat, o: Order): Receipt {
    Receipt(orderId, o.number, o.status, o.total, o.items)
  }

  /** The committed effect of a creation that is not a replay, given what the earlier stages produced. */
  function Place(s: Store, req: CreateRequest, keys: map<string, KeyRecord>, slots: seq<Slot>, plan: Option<(int, nat)>,
                 products: map<int, Product>, items: seq<Item>, total: nat): (Store, Receipt)
    requires req.key in keys
  {
    var id := |s.orders|;
    var o := FinalOrder(req, items, total, plan);
    var receipt := ReceiptOf(id, o);
    (s.(products := products, slots := slots,
        coupons := SpendCoupon(s.coupons, req, id),
        orders := s.orders + [o],
        jobs := if req.pos.Some? && req.pos.value.printJob then s.jobs + [Job(id, JobPending, 0, None)] else s.jobs,
        keys := keys[req.key := keys[req.key].(snapshot := Some(receipt))]),
     receipt)
  }

  function Create(s: Store, shop: Shop, req: CreateRequest): Result<(Store, Receipt), OrderError> {
    var problem := Precheck(s.keys, req);
    if problem.Some? then Err(problem.value)
    else
      var (keys, snapshot) :- ClaimKey(s.keys, req.key, req.payload, req.now);
      if snapshot.Some? then Ok((s.(keys := keys), snapshot.value))
      else
        var (slots, plan) :- PlanSlot(s.slots, shop, req);
        var (products, items) :- TakeLines(s.products, s.options, [], req.payload.lines);
        var total :- Charge(s.coupons, req.payload.couponId, req.user, items);
        if !RowAccepted(s, req, total) then Err(RowRejected)
        else Ok(Place(s, req, keys, slots, plan, products, items, total))
  }

  method PlanReservation(db: Session, shop: Shop, req: CreateRequest) returns (r: Result<Option<(int, nat)>, OrderError>)
    modifies db
    ensures match PlanSlot(old(db.slots), shop, req)
      case Err(e) => r == Err(e)
      case Ok((slots, plan)) => r == Ok(plan) && db.View() == old(db.View()).(slots := slots)
  {
    if req.payload.scheduledAt.None? {
      return Ok(None);
    }
    if req.payload.orderType != Pickup {
      return Err(OnlyPickupReserved);
    }
    var plan := PlanTime(shop, req.now, req.payload.scheduledAt.value);
    if plan.Err? {
      return Err(CannotReserve(plan.error));
    }
    var slot := ReserveSlot(db, plan.value.slotStart, plan.value.slotEnd, shop.slotCapacity);
    if slot.Err? {
      return Err(CannotReserve(slot.error));
    }
    return Ok(Some((plan.value.scheduledAt, slot.value)));
  }

  /** The inserts, the coupon update, the counter's hook and the stored response. */
  method InsertOrder(db: Session, req: CreateRequest, plan: Option<(int, nat)>, items: seq<Item>, total: nat)
    returns (receipt: Receipt)
    requires req.key in db.keys
    modifies db
    ensures (db.View(), receipt) ==
            Place(old(db.View()), req, old(db.keys), old(db.slots), plan, old(db.products), items, total)
  {
    var id := |db.orders|;
    db.orders := db.orders + [NewOrder(req, items, total, plan)];
    if Redeems(req.payload.couponId, req.user) && req.payload.couponId.value in db.coupons {
      var c := req.payload.couponId.value;
      db.coupons := db.coupons[c := db.coupons[c].(status := Used, usedIn := Some(id))];
    }
    if req.pos.Some? {
      var o := db.orders[id].(channel := Some(req.pos.value.channel));
      if Immediate(req.pos.value.channel) {
        o := o.(payment := Settled, status := Paid);
      }
      db.orders := db.orders[id := o];
      if req.pos.value.printJob {
        db.jobs := db.jobs + [Job(id, JobPending, 0, None)];
      }
    }
    assert db.orders == old(db.orders) + [FinalOrder(req, items, total, plan)];
    receipt := ReceiptOf(id, db.orders[id]);
    db.keys := db.keys[req.key := db.keys[req.key].(snapshot := Some(receipt))];
  }

  /** One transaction: any failure rolls every table back. */
  method CreateOrder(db: Session, shop: Shop, req: CreateRequest) returns (r: Result<Receipt, OrderError>)
    modifies db
    ensures match Create(old(db.View()), shop, req)
      case Err(e) => r == Err(e) && db.View() == old(db.View())
      case Ok((s, receipt)) => r == Ok(receipt) && db.View() == s
  {
    hide ClaimKey, PlanSlot, TakeLines, Charge, Place, RowAccepted, Precheck;
    var problem := Precheck(db.keys, req);
    if problem.Some? {
      return Err(problem.value);
    }
    var saved := db.View();
    var claimed := EnsureIdempotency(db, req.key, req.payload, req.now);
    if claimed.Err? {
      db.Rollback(saved);
      return Err(claimed.error);
    }
    if claimed.value.Some? {
      return Ok(claimed.value.value);
    }
    ClaimedKeyPresent(saved.keys, req.key, req.payload, req.now);
    var plan := PlanReservation(db, shop, req);
    if plan.Err? {
      db.Rollback(saved);
      return Err(plan.error);
    }
    var taken := DeductLines(db, req.payload.lines);
    if taken.Err? {
      db.Rollback(saved);
      return Err(taken.error);
    }
    var (items, subtotal) := taken.value;
    var total := Charge(db.coupons, req.payload.couponId, req.user, items);
    if total.Err? {
      db.Rollback(saved);
      return Err(total.error);
    }
    RowAcceptedReads(saved, db.View(), req, total.value);
    if !RowAccepted(db.View(), req, total.value) {
      db.Rollback(saved);
      return Err(RowRejected);
    }
    RowAcceptedTotal(db.View(), req, total.value);
    PlaceReads(saved, db.View(), req, plan.value, items, total.value);
    var receipt := InsertOrder(db, req, plan.value, items, total.value);
    return Ok(receipt);
  }

  lemma ClaimedKeyPresent(keys: map<string, KeyRecord>, key: string, payload: Payload, now: int)
    requires ClaimKey(keys, key, payload, now).Ok?
    ensures key in ClaimKey(keys, key, payload, now).value.0
  {
  }

  lemma RowAcceptedReads(s: Store, s': Store, req: CreateRequest, total: int)
    requires s.coupons == s'.coupons && s.orders == s'.orders
    ensures RowAccepted(s, req, total) == RowAccepted(s', req, total)
  {
  }

  lemma RowAcceptedTotal(s: Store, req: CreateRequest, total: int)
    requires RowAccepted(s, req, total)
    ensures total >= 0
  {
  }

  lemma PlaceReads(s: Store, s': Store, req: CreateRequest, plan: Option<(int, nat)>, items: seq<Item>, total: nat)
    requires s' == s.(keys := s'.keys, slots := s'.slots, products := s'.products) && req.key in s'.keys
    ensures Place(s', req, s'.keys, s'.slots, plan, s'.products, items, total) ==
            Place(s, req, s'.keys, s'.slots, plan, s'.products, items, total)
  {
  }

  // ---------- cancellation ----------

  predicate Cancellable(o: Order) {
    o.status == PendingPayment && o.payment == Pending
  }

  /** An order as its cancellation leaves it. */
  function Withdrawn(o: Order): Order {
    o.(status := Cancelled, slot := None, isScheduled := if o.slot.Some? then false else o.isScheduled)
  }

  function Cancel(s: Store, k: nat): (Store, bool) {
    if k >= |s.orders| || !Cancellable(s.orders[k]) then (s, false)
    else
      var o := s.orders[k];
      (s.(products := Restored(s.products, o.items),
          orders := s.orders[k := Withdrawn(o)],
          cancels := s.cancels + [k],
          slots := Release(s.slots, o.slot)),
       true)
  }

  method CancelPendingOrder(db: Session, k: nat) returns (cancelled: bool)
    modifies db
    ensures (db.View(), cancelled) == Cancel(old(db.View()), k)
  {
    if k >= |db.orders| {
      return false;
    }
    if db.orders[k].status != PendingPayment || db.orders[k].payment != Pending {
      return false;
    }
    RestoreFromOrderItems(db, db.orders[k].items);
    db.orders := db.orders[k := db.orders[k].(status := Cancelled)];
    db.cancels := db.cancels + [k];
    var slot := db.orders[k].slot;
    if slot.Some? {
      ReleaseSlot(db, slot);
      db.orders := db.orders[k := db.orders[k].(slot := None, isScheduled := false)];
    }
    assert db.orders == Cancel(old(db.View()), k).0.orders;
    return true;
  }

  // ---------- the stale batch ----------

  function StaleBelow(orders: seq<Order>, cutoff: int, n: nat): seq<nat>
    requires n <= |orders|
  {
    if n == 0 then []
    else StaleBelow(orders, cutoff, n - 1) +
         (if Cancellable(orders[n - 1]) && orders[n - 1].createdAt <= cutoff then [n - 1] else [])
  }

  predicate Older(orders: seq<Order>, a: nat, b: nat) {
    if a >= |orders| || b >= |orders| then a <= b
    else orders[a].createdAt < orders[b].createdAt || (orders[a].createdAt == orders[b].createdAt && a <= b)
  }

  function Age(orders: seq<Order>): (nat, nat) -> bool {
    (a: nat, b: nat) => Older(orders, a, b)
  }

  function StaleQueue(orders: seq<Order>, cutoff: int): seq<nat> {
    Sort(Age(orders), StaleBelow(orders, cutoff, |orders|))
  }

  function StaleIds(orders: seq<Order>, cutoff: int, limit: nat): seq<nat> {
    var queue := StaleQueue(orders, cutoff);
    if limit < |queue| then queue[..limit] else queue
  }

  function CancelAll(s: Store, cancelled: seq<nat>, ids: seq<nat>): (Store, seq<nat>)
    decreases ids
  {
    if ids == [] then (s, cancelled)
    else
      var (s', ok) := Cancel(s, ids[0]);
      CancelAll(s', if ok then cancelled + [ids[0]] else cancelled, ids[1..])
  }

  function CancelStale(s: Store, cutoff: int, limit: nat): (Store, seq<nat>) {
    CancelAll(s, [], StaleIds(s.orders, cutoff, limit))
  }

  method CancelStalePendingOrders(db: Session, cutoff: int, limit: nat) returns (cancelled: seq<nat>)
    modifies db
    ensures (db.View(), cancelled) == CancelStale(old(db.View()), cutoff, limit)
  {
    hide Cancel, StaleIds;
    var ids := StaleIds(db.orders, cutoff, limit);
    cancelled := [];
    for i := 0 to |ids|
      invariant CancelAll(old(db.View()), [], ids) == CancelAll(db.View(), cancelled, ids[i..])
    {
      assert ids[i..][1..] == ids[i + 1..];
      var ok := CancelPendingOrder(db, ids[i]);
      if ok {
        cancelled := cancelled + [ids[i]];
      }
    }
  }
}
