/** What pairs and runs of engine steps come to: undoing, sweeping, and the payments that arrive late or twice. */
module Outcomes {
  import opened Wrappers
  import opened Tables
  import opened Sorting
  import opened Inventories
  import opened Reservations
  import opened Pricing
  import opened Orders
  import opened Deduction
  import opened Invariants
  import opened Payments
  import opened PaymentMatch
  import opened Steps
  import opened Engine
  import PrintJobs
  import PrintRuns

  // ---------- creating and cancelling ----------

  /** A creation that inserted an order which still waits for its payment. */
  predicate LeavesWaiting(s: Store, shop: Shop, req: CreateRequest) {
    && Inserts(s, Creating(shop, req), req.key)
    && !(req.pos.Some? && Immediate(req.pos.value.channel))
  }

  /** Apart from the end of the slot's interval, and a slot opened for it, releasing undoes reserving. */
  ghost predicate SameSlots(slots: seq<Slot>, after: seq<Slot>) {
    && |slots| <= |after| <= |slots| + 1
    && (forall j :: 0 <= j < |slots| ==> after[j] == slots[j].(end := after[j].end))
    && (forall j :: |slots| <= j < |after| ==> after[j].reserved == 0)
  }

  lemma ReserveThenRelease(slots: seq<Slot>, shop: Shop, req: CreateRequest, slots': seq<Slot>, plan: Option<(int, nat)>)
    requires PlanSlot(slots, shop, req) == Ok((slots', plan))
    ensures SameSlots(slots, Release(slots', if plan.Some? then Some(plan.value.1) else None))
  {
  }

  lemma WaitingOrderFacts(req: CreateRequest, items: seq<Item>, total: nat, plan: Option<(int, nat)>)
    requires !(req.pos.Some? && Immediate(req.pos.value.channel))
    ensures var o := FinalOrder(req, items, total, plan);
            Cancellable(o) && o.items == items && o.slot == if plan.Some? then Some(plan.value.1) else None
  {
  }

  /**
   Cancelling the order just created gives back every product row, stock and
   inventory status, and every slot's count; a slot the creation opened is left
   empty.  A spent coupon stays spent.
   */
  lemma CreateThenCancel(s: Store, shop: Shop, req: CreateRequest)
    requires LeavesWaiting(s, shop, req)
    ensures var s' := Step(s, Creating(shop, req));
            var (t, cancelled) := Cancel(s', |s.orders|);
            && cancelled
            && t.products == s.products
            && SameSlots(s.slots, t.slots)
            && t.coupons == s'.coupons
  {
    hide Create, ClaimKey, PlanSlot, TakeLines, Charge, SpendCoupon, Release, Restored, FinalOrder, RowAccepted, SameSlots;
    var replay, keys, slots, plan, products, items, total := CreateStages(s, shop, req);
    RestockUndoes(s.products, s.options, req.payload.lines, products, items);
    ReserveThenRelease(s.slots, shop, req, slots, plan);
    WaitingOrderFacts(req, items, total, plan);
    var s' := Step(s, Creating(shop, req));
    assert s'.orders[|s.orders|] == FinalOrder(req, items, total, plan);
    assert s'.products == products && s'.slots == slots;
  }

  // ---------- previewing and creating ----------

  function PickupPreview(req: CreateRequest): PreviewRequest {
    PreviewRequest(req.payload.lines, req.payload.couponId, 0, Pickup, None)
  }

  /** What the preview asks of a coupon id: a usable coupon of the customer, unless none is given. */
  predicate Presentable(coupons: map<int, Coupon>, couponId: Option<int>, user: Option<int>) {
    couponId.None? || (user.Some? && UsableCoupon(coupons, couponId.value, user.value).Some?)
  }

  /**
   Of what creation accepts, a pick-up preview of the same rows accepts exactly the
   orders with a line whose coupon id, if any, names a usable coupon of the
   customer; it then has the same items, and the same amount exactly when the coupon
   is a free drink or discounts nothing.
   */
  lemma CreateChargesPreview(s: Store, shop: Shop, req: CreateRequest, buyer: Option<Buyer>)
    requires Inserts(s, Creating(shop, req), req.key) && IdOf(buyer) == req.user
    ensures Preview(s, PickupPreview(req), buyer).Ok? <==>
            req.payload.lines != [] && Presentable(s.coupons, req.payload.couponId, req.user)
    ensures Preview(s, PickupPreview(req), buyer).Ok? ==>
            var q := Preview(s, PickupPreview(req), buyer).value;
            var receipt := Create(s, shop, req).value.1;
            && q.items == receipt.items
            && (FairPrices(q.items) ==>
                 (q.final == receipt.total <==> Credited(s.coupons, req.payload.couponId, req.user) || q.coupon == 0))
  {
    hide Create, ClaimKey, PlanSlot, TakeLines, QuoteLines, SpendCoupon, Subtotal, FairPrices;
    var replay, keys, slots, plan, products, items, total := CreateStages(s, shop, req);
    TakenIsQuoted(s.products, s.products, s.options, [], req.payload.lines);
    PreviewOfQuoted(s, PickupPreview(req), buyer, items);
    var preview := Preview(s, PickupPreview(req), buyer);
    if preview.Ok? && FairPrices(preview.value.items) {
      PreviewIsCharged(s, PickupPreview(req), buyer, preview.value, total);
    }
  }

  lemma PreviewOfQuoted(s: Store, req: PreviewRequest, buyer: Option<Buyer>, items: seq<Item>)
    requires QuoteLines(s.products, s.options, [], req.lines) == Ok(items)
    requires req.orderType == Pickup && req.pointsUse == 0
    ensures Preview(s, req, buyer).Ok? <==> req.lines != [] && Presentable(s.coupons, req.couponId, IdOf(buyer))
    ensures Preview(s, req, buyer).Ok? ==> Preview(s, req, buyer).value.items == items
  {
    hide QuoteLines, Subtotal, PointsDiscount;
  }

  const GUEST_SHOP: Store :=
    Store(map[1 := Product(true, InStock, 3, 900, {})], map[], map[7 := Coupon(1, FreeAnyDrink, Active, None)],
          map["g" := KeyRecord(GuestScope, None, None, Some(9))], [], [], [], [], [], [])

  const GUEST_REQUEST: CreateRequest :=
    CreateRequest("k", Payload([Line(1, 3, [])], Pickup, None, None, Some("g"), None, Some(7)), None, None, 5, "n")

  lemma GuestLine()
    ensures var s, item := GUEST_SHOP, Item(1, 3, 900);
            var line := Line(1, 3, []);
            && QuoteLine(s.products, s.options, line) == Ok(item)
            && TakeLines(s.products, s.options, [], [line]) == Ok((s.products[1 := Deduct(s.products[1], 3)], [item]))
            && Subtotal([item]) == 2700
  {
    var s, item, line := GUEST_SHOP, Item(1, 3, 900), Line(1, 3, []);
    assert [line][1..] == [] && [] + [item] == [item] && [item][..0] == [];
    assert Subtotal([item]) == Subtotal([]) + 2700;
    assert QuoteLine(s.products, s.options, line) == Ok(item);
    assert TakeLines(s.products, s.options, [], [line]) ==
           TakeLines(s.products[1 := Deduct(s.products[1], 3)], s.options, [item], []);
  }

  lemma GuestShopIsValid()
    ensures Valid(GUEST_SHOP) && Precheck(GUEST_SHOP.keys, GUEST_REQUEST).None?
  {
    assert "k"[0] == 'k';
  }

  /** A guest's order that names a coupon is created at full price, and its preview is refused. */
  lemma GuestCouponNotQuoted(shop: Shop)
    ensures Valid(GUEST_SHOP) && Inserts(GUEST_SHOP, Creating(shop, GUEST_REQUEST), "k")
    ensures Create(GUEST_SHOP, shop, GUEST_REQUEST).value.1.total == 2700
    ensures Preview(GUEST_SHOP, PickupPreview(GUEST_REQUEST), None) == Err(LoginRequired)
  {
    GuestLine();
    GuestShopIsValid();
    hide Valid, TakeLines, QuoteLine, Subtotal, Precheck, PlanTime;
  }

  // ---------- the stale batch ----------

  predicate Stale(o: Order, cutoff: int) {
    Cancellable(o) && o.createdAt <= cutoff
  }

  lemma {:induction false} StaleBelowFacts(orders: seq<Order>, cutoff: int, n: nat)
    requires n <= |orders|
    ensures forall k: nat :: k in StaleBelow(orders, cutoff, n) <==> k < n && Stale(orders[k], cutoff)
    ensures NoDups(StaleBelow(orders, cutoff, n))
  {
    if n > 0 {
      StaleBelowFacts(orders, cutoff, n - 1);
      assert n - 1 !in StaleBelow(orders, cutoff, n - 1);
    }
  }

  lemma StaleQueueFacts(orders: seq<Order>, cutoff: int)
    ensures forall k: nat :: k in StaleQueue(orders, cutoff) <==> k < |orders| && Stale(orders[k], cutoff)
    ensures NoDups(StaleQueue(orders, cutoff)) && Sorted(Age(orders), StaleQueue(orders, cutoff))
  {
    var below := StaleBelow(orders, cutoff, |orders|);
    StaleBelowFacts(orders, cutoff, |orders|);
    SortPermutes(Age(orders), below);
    SortSorts(Age(orders), below);
    CountedOnce(below, StaleQueue(orders, cutoff));
    forall k: nat
      ensures k in StaleQueue(orders, cutoff) <==> k in below
    {
      SortMembers(Age(orders), below, k);
    }
  }

  lemma StaleIdsFacts(orders: seq<Order>, cutoff: int, limit: nat)
    ensures var ids := StaleIds(orders, cutoff, limit);
            NoDups(ids) && forall k :: k in ids ==> k in StaleQueue(orders, cutoff) && k < |orders| && Stale(orders[k], cutoff)
  {
    hide StaleQueue;
    StaleQueueFacts(orders, cutoff);
    var ids := StaleIds(orders, cutoff, limit);
    forall k | k in ids
      ensures k in StaleQueue(orders, cutoff)
    {
    }
  }

  lemma {:induction false} CancelAllExactly(s: Store, done: seq<nat>, ids: seq<nat>)
    requires NoDups(ids) && forall k :: k in ids ==> k < |s.orders| && Cancellable(s.orders[k])
    ensures var (t, cancelled) := CancelAll(s, done, ids);
            && cancelled == done + ids && |t.orders| == |s.orders| && t.cancels == s.cancels + ids
            && forall k :: 0 <= k < |s.orders| ==> t.orders[k] == if k in ids then Withdrawn(s.orders[k]) else s.orders[k]
    decreases ids
  {
    hide Restored, Release;
    if ids != [] {
      assert ids == [ids[0]] + ids[1..];
      CancelAllExactly(Cancel(s, ids[0]).0, done + [ids[0]], ids[1..]);
    }
  }

  /** Created earlier, or at the same instant with a smaller id. */
  predicate Precedes(orders: seq<Order>, a: nat, b: nat) {
    && a < |orders| && b < |orders|
    && (orders[a].createdAt < orders[b].createdAt || (orders[a].createdAt == orders[b].createdAt && a < b))
  }

  /**
   A sweep cancels exactly the orders it reports, each of them stale; every other
   order is untouched; a stale order stays only when the batch was full, and then
   every order taken precedes it; they are taken oldest first.
   */
  lemma SweepTakesOldest(s: Store, cutoff: int, limit: nat, k: nat)
    requires k < |s.orders|
    ensures var (t, ids) := CancelStale(s, cutoff, limit);
            && |t.orders| == |s.orders| && |ids| <= limit && NoDups(ids) && t.cancels == s.cancels + ids
            && t.orders[k] == (if k in ids then Withdrawn(s.orders[k]) else s.orders[k])
            && (k in ids ==> Stale(s.orders[k], cutoff))
            && (Stale(s.orders[k], cutoff) && k !in ids ==> |ids| == limit && forall i :: i in ids ==> Precedes(s.orders, i, k))
            && (forall a, b :: 0 <= a < b < |ids| ==> Precedes(s.orders, ids[a], ids[b]))
  {
    var queue, ids := StaleQueue(s.orders, cutoff), StaleIds(s.orders, cutoff, limit);
    StaleQueueFacts(s.orders, cutoff);
    StaleIdsFacts(s.orders, cutoff, limit);
    hide StaleQueue, CancelAll, Older, Precedes;
    CancelAllExactly(s, [], ids);
    if Stale(s.orders[k], cutoff) && k !in ids {
      var b :| 0 <= b < |queue| && queue[b] == k;
      forall i | i in ids
        ensures Precedes(s.orders, i, k)
      {
        var a :| 0 <= a < |ids| && ids[a] == i;
        assert queue[a] == i && a < b && Age(s.orders)(queue[a], queue[b]);
        AgePrecedes(s.orders, i, k);
      }
    }
    TakenInOrder(s.orders, cutoff, limit);
  }

  lemma TakenInOrder(orders: seq<Order>, cutoff: int, limit: nat)
    ensures var ids := StaleIds(orders, cutoff, limit);
            forall a, b :: 0 <= a < b < |ids| ==> Precedes(orders, ids[a], ids[b])
  {
    var queue, ids := StaleQueue(orders, cutoff), StaleIds(orders, cutoff, limit);
    StaleQueueFacts(orders, cutoff);
    hide StaleQueue, Precedes;
    forall a, b | 0 <= a < b < |ids|
      ensures Precedes(orders, ids[a], ids[b])
    {
      assert queue[a] == ids[a] && queue[b] == ids[b] && Age(orders)(queue[a], queue[b]);
      assert queue[a] in queue && queue[b] in queue && queue[a] != queue[b];
      AgePrecedes(orders, ids[a], ids[b]);
    }
  }

  lemma AgePrecedes(orders: seq<Order>, a: nat, b: nat)
    requires a < |orders| && b < |orders| && a != b
    ensures Age(orders)(a, b) <==> Precedes(orders, a, b)
  {
  }

  // ---------- guest sessions ----------

  /** An issued session is accepted exactly until it expires; a token that is taken issues none. */
  lemma SessionUsableExactly(s: Store, existing: Option<string>, token: string, now: int, ttlMinutes: int, later: int)
    ensures var r := IssueSession(s.keys, existing, token, now, ttlMinutes);
            if r.Some? then
              GuestProblem(r.value.0, r.value.1, later) ==
              if later <= now + Max(ttlMinutes, 1) * MINUTE then None else Some(GuestExpired)
            else token in s.keys
  {
  }

  // ---------- payments and print jobs ----------

  /** The order that a callback or a match pays. */
  function PaidBy(s: Store, e: Event): Option<nat> {
    match e
    case Paying(n, now) => if Notify(s, n, now).Ok? then Orders.FindOrder(s.orders, n.number) else None
    case Matching(m, now) => if Match(s, m, now).Ok? then Some(Match(s, m, now).value.1) else None
    case _ => None
  }

  lemma WokenIsDue(jobs: seq<Job>, orders: seq<Order>, k: nat, now: int)
    requires JobsOk(orders, jobs)
    ensures exists j :: 0 <= j < |WakeJob(jobs, k, now)| && Woken(WakeJob(jobs, k, now), j, k, now)
  {
    var found := FindJob(jobs, k);
    var j := if found.Some? then found.value else |jobs|;
    assert Woken(WakeJob(jobs, k, now), j, k, now);
  }

  /** Row `j` is the order's only job, and it is finished, running, or waiting to be tried now. */
  ghost predicate Woken(jobs: seq<Job>, j: nat, k: nat, now: int)
    requires j < |jobs|
  {
    && jobs[j].order == k && (forall i :: 0 <= i < |jobs| && jobs[i].order == k ==> i == j)
    && (jobs[j].status == JobDone || jobs[j].status == JobProcessing ||
        (jobs[j].status == JobPending && jobs[j].nextTry == Some(now)))
  }

  /** A payment leaves its order with exactly one print job, and recovery would pick it now unless it runs or is done. */
  lemma PaymentWakesJob(s: Store, e: Event)
    requires Valid(s) && PaidBy(s, e).Some?
    ensures var t := Step(s, e);
            exists j :: 0 <= j < |t.jobs| && Woken(t.jobs, j, PaidBy(s, e).value, e.now) &&
              (t.jobs[j].status == JobDone || t.jobs[j].status == JobProcessing || j in PrintJobs.DueJobs(t.jobs, e.now))
  {
    hide Woken, WakeJob, Acquire, PickOrder, Recorded, PrintJobs.DueJobs;
    var t, k := Step(s, e), PaidBy(s, e).value;
    WokenIsDue(s.jobs, s.orders, k, e.now);
    assert t.jobs == WakeJob(s.jobs, k, e.now);
    var j :| 0 <= j < |t.jobs| && Woken(t.jobs, j, k, e.now);
    WokenFacts(t.jobs, j, k, e.now);
    PrintRuns.DueJobsFacts(t.jobs, e.now);
  }

  lemma WokenFacts(jobs: seq<Job>, j: nat, k: nat, now: int)
    requires j < |jobs| && Woken(jobs, j, k, now)
    ensures jobs[j].status == JobDone || jobs[j].status == JobProcessing || PrintJobs.IsDue(jobs[j], now)
  {
  }

  // ---------- payments that arrive late ----------

  /** The callback that `handle_wechat_notification` accepts for order `k`. */
  predicate Accepts(s: Store, n: Notification, k: nat) {
    n.signatureOk && k < |s.orders| && s.orders[k].number == n.number && n.currency == "CNY" && s.orders[k].total == n.amount
  }

  /** An administrator names order `k` for a payment that no other order has taken. */
  predicate Forces(s: Store, m: MatchRequest, k: nat) {
    m.force == Some(k) && k < |s.orders| && s.orders[k].total == m.amount && Acquire(s.payments, m).Ok?
  }

  /** Money is taken for an order whose units went back on the shelf. */
  predicate PaidWithoutStock(s: Store, k: nat) {
    k < |s.orders| && s.orders[k].payment == Settled && k in s.cancels
  }

  /** The event pays an order that has been cancelled. */
  predicate PaysCancelled(s: Store, e: Event, k: nat) {
    && k < |s.orders| && s.orders[k].status == Cancelled
    && ((e.Paying? && Accepts(s, e.n, k)) || (e.Matching? && Forces(s, e.m, k)))
  }

  lemma AcceptsIsOk(s: Store, n: Notification, now: int, k: nat)
    requires OrdersOk(s.orders)
    ensures Accepts(s, n, k) <==> Notify(s, n, now).Ok? && Orders.FindOrder(s.orders, n.number) == Some(k)
  {
  }

  lemma PaysOnly(s: Store, e: Event, k: nat)
    requires Valid(s) && k < |s.orders| && s.orders[k].status == Cancelled
    ensures k < |Step(s, e).orders|
    ensures Step(s, e).orders[k].payment == Settled <==> PaysCancelled(s, e, k)
  {
    hide Create, IssueSession, Acquire, Candidates, WakeJob, Recorded;
    hide PrintJobs.ClaimJob, PrintJobs.FinishJob, PrintJobs.Recover;
    assert OrderOk(s.orders[k]);
    match e {
      case Creating(shop, req) =>
        CreateLeaves(s, shop, req, k);
      case Paying(n, now) =>
        AcceptsIsOk(s, n, now, k);
      case Matching(m, now) =>
        MatchesCancelled(s, m, now, k);
      case Sweeping(cutoff, limit) =>
        SweepTakesOldest(s, cutoff, limit, k);
      case _ =>
    }
  }

  lemma CreateLeaves(s: Store, shop: Shop, req: CreateRequest, k: nat)
    requires k < |s.orders|
    ensures k < |Step(s, Creating(shop, req)).orders| && Step(s, Creating(shop, req)).orders[k] == s.orders[k]
  {
  }

  lemma MatchesCancelled(s: Store, m: MatchRequest, now: int, k: nat)
    requires Valid(s) && k < |s.orders| && s.orders[k].status == Cancelled
    ensures var t := Step(s, Matching(m, now));
            k < |t.orders| && (t.orders[k].payment == Settled <==> Forces(s, m, k))
  {
    hide Acquire, Candidates, WakeJob, Valid;
    assert OrderOk(s.orders[k]) by {
      ValidOrder(s, k);
    }
    if m.force.None? && Match(s, m, now).Ok? {
      UnforcedPicksOnly(s.orders, m, Match(s, m, now).value.1);
    }
  }

  lemma ValidOrder(s: Store, k: nat)
    requires Valid(s) && k < |s.orders|
    ensures OrderOk(s.orders[k])
  {
  }

  lemma CancelledIsRecorded(s: Store, k: nat)
    requires Valid(s)
    ensures k < |s.orders| && s.orders[k].status == Cancelled ==> k in s.cancels
    ensures k in s.cancels ==> k < |s.orders| && s.orders[k].status != PendingPayment
  {
  }

  lemma NewlyCancelled(s: Store, e: Event, k: nat)
    requires k in Step(s, e).cancels && k !in s.cancels
    ensures k < |s.orders| && k < |Step(s, e).orders| && Step(s, e).orders[k].status == Cancelled
  {
    hide Create, IssueSession, Acquire, PickOrder, WakeJob, Recorded, Restored, StaleIds;
    hide PrintJobs.ClaimJob, PrintJobs.FinishJob, PrintJobs.Recover;
    match e {
      case Creating(shop, req) =>
        CreateLeavesLogs(s, shop, req);
      case Sweeping(cutoff, limit) =>
        SweptInRange(s, cutoff, limit, k);
      case _ =>
    }
  }

  lemma CreateLeavesLogs(s: Store, shop: Shop, req: CreateRequest)
    ensures var t := Step(s, Creating(shop, req)); t.cancels == s.cancels && t.effects == s.effects && t.payments == s.payments
  {
  }

  lemma SweptInRange(s: Store, cutoff: int, limit: nat, k: nat)
    requires k in CancelStale(s, cutoff, limit).0.cancels && k !in s.cancels
    ensures k < |s.orders| && k < |CancelStale(s, cutoff, limit).0.orders|
    ensures CancelStale(s, cutoff, limit).0.orders[k].status == Cancelled
  {
    hide StaleIds, CancelAll;
    StaleIdsFacts(s.orders, cutoff, limit);
    CancelAllExactly(s, [], StaleIds(s.orders, cutoff, limit));
  }

  /** Over one step, an order becomes paid without stock exactly when the step pays it after it was cancelled. */
  lemma LatePaymentExactly(s: Store, e: Event, k: nat)
    requires Valid(s) && !PaidWithoutStock(s, k)
    ensures PaidWithoutStock(Step(s, e), k) <==> PaysCancelled(s, e, k)
  {
    hide Step, Valid;
    StepKeeps(s, e);
    CancelledIsRecorded(s, k);
    if k in Step(s, e).cancels && k !in s.cancels {
      NewlyCancelled(s, e, k);
      ValidOrder(Step(s, e), k);
    }
    if k < |s.orders| {
      ValidOrder(s, k);
      LaterOrder(s, Step(s, e), k);
      if s.orders[k].status == Cancelled {
        PaysOnly(s, e, k);
      }
    }
  }

  lemma LaterOrder(s: Store, s': Store, k: nat)
    requires Later(s, s') && k < |s.orders|
    ensures k < |s'.orders| && OrderLater(s.orders[k], s'.orders[k]) && s.cancels <= s'.cancels
    ensures s.orders[k].payment == Settled && k in s'.cancels ==> k in s.cancels
  {
  }

  /** Some event of the run pays order `k` after it was cancelled. */
  predicate PaidLate(s: Store, es: seq<Event>, k: nat)
    decreases es
  {
    es != [] && (PaysCancelled(s, es[0], k) || PaidLate(Step(s, es[0]), es[1..], k))
  }

  /**
   Over any run, an order ends up paid with its units back on the shelf exactly
   when some callback or forced match came for it after its cancellation.
   */
  lemma {:induction false} PaidWithoutStockExactly(s: Store, es: seq<Event>, k: nat)
    requires Valid(s) && !PaidWithoutStock(s, k)
    ensures PaidWithoutStock(Run(s, es), k) <==> PaidLate(s, es, k)
    decreases es
  {
    hide Step, Valid, PaysCancelled;
    if es != [] {
      var t := Step(s, es[0]);
      StepKeeps(s, es[0]);
      LatePaymentExactly(s, es[0], k);
      if PaidWithoutStock(t, k) {
        RunKeeps(t, es[1..]);
        LaterOrder(t, Run(t, es[1..]), k);
      } else {
        PaidWithoutStockExactly(t, es[1..], k);
      }
    }
  }

  const WAITER: Order := Order("n", Some(1), None, [Item(1, 2, 900)], 1800, PendingPayment, Pending, None, Pickup,
                               false, None, None, None, 0)

  const COUNTER: Store := Store(map[1 := Product(true, InStock, 3, 900, {})], map[], map[], map[], [WAITER], [], [], [], [], [])

  const BOOKED: Order := WAITER.(isScheduled := true, scheduledAt := Some(5), slot := Some(0))

  const CALENDAR: Store := COUNTER.(orders := [BOOKED], slots := [Slot(0, 10, 1, 1)])

  const CALLBACK: Notification := Notification(true, "n", "t", 1800, "CNY", "wechat", 9)

  lemma SoleOrderFound(s: Store)
    requires |s.orders| == 1 && s.orders[0].number == "n"
    ensures Orders.FindOrder(s.orders, "n") == Some(0)
  {
  }

  lemma CounterIsValid()
    ensures Valid(COUNTER) && Valid(CALENDAR)
  {
  }

  /** A callback after the cancellation: the order is paid and its two units are for sale again. */
  lemma CancelledThenPaid()
    ensures Valid(COUNTER)
    ensures var t := Run(COUNTER, [Cancelling(0), Paying(CALLBACK, 9)]);
            PaidWithoutStock(t, 0) && 1 in t.products && t.products[1].stock == 5
  {
    hide WakeJob, Recorded, Valid;
    CounterIsValid();
    var es := [Cancelling(0), Paying(CALLBACK, 9)];
    var s1 := Step(COUNTER, es[0]);
    assert WAITER.items[..0] == [] && Units(WAITER.items, 1) == 2;
    assert es[1..] == [Paying(CALLBACK, 9)] && es[1..][1..] == [];
    assert s1.orders == [Withdrawn(WAITER)] && s1.cancels == [0];
    SoleOrderFound(s1);
    assert Run(COUNTER, es) == Run(s1, es[1..]) == Run(Step(s1, es[1]), []);
  }

  // ---------- payments that arrive twice ----------

  /** The event is an accepted callback for an order that is already in production. */
  predicate PaysInProduction(s: Store, e: Event, k: nat) {
    e.Paying? && Accepts(s, e.n, k) && s.orders[k].status == InProduction
  }

  lemma EffectsOf(s: Store, e: Event)
    ensures Step(s, e).effects ==
            match e
            case Paying(n, now) =>
              if Notify(s, n, now).Ok? && s.orders[Orders.FindOrder(s.orders, n.number).value].status != Paid
              then s.effects + [Orders.FindOrder(s.orders, n.number).value] else s.effects
            case Matching(m, now) => if Match(s, m, now).Ok? then s.effects + [Match(s, m, now).value.1] else s.effects
            case _ => s.effects
    ensures !e.Paying? && !e.Matching? ==> Step(s, e).payments == s.payments
  {
    hide Create, IssueSession, Acquire, PickOrder, WakeJob, Recorded, Restored, StaleIds;
    hide PrintJobs.ClaimJob, PrintJobs.FinishJob, PrintJobs.Recover;
    match e {
      case Creating(shop, req) =>
        CreateLeavesLogs(s, shop, req);
      case Sweeping(cutoff, limit) =>
        CancelAllLeavesLogs(s, [], StaleIds(s.orders, cutoff, limit));
      case _ =>
    }
  }

  lemma {:induction false} CancelAllLeavesLogs(s: Store, done: seq<nat>, ids: seq<nat>)
    ensures CancelAll(s, done, ids).0.effects == s.effects && CancelAll(s, done, ids).0.payments == s.payments
    decreases ids
  {
    hide Restored, Release;
    if ids != [] {
      var (t, ok) := Cancel(s, ids[0]);
      CancelAllLeavesLogs(t, if ok then done + [ids[0]] else done, ids[1..]);
    }
  }

  /** Once settled, an order's side effects are enqueued again exactly by a callback that finds it in production. */
  lemma DispatchedAgainExactly(s: Store, e: Event, k: nat)
    requires Valid(s) && k < |s.orders| && s.orders[k].payment == Settled
    ensures Step(s, e).effects == s.effects + [k] <==> PaysInProduction(s, e, k)
    ensures !PaysInProduction(s, e, k) ==> multiset(Step(s, e).effects)[k] == multiset(s.effects)[k]
  {
    hide Step, Acquire, Candidates, WakeJob, Recorded;
    EffectsOf(s, e);
    ValidOrder(s, k);
    match e {
      case Paying(n, now) =>
        AcceptsIsOk(s, n, now, k);
        if Notify(s, n, now).Ok? {
          var j := Orders.FindOrder(s.orders, n.number).value;
          assert (s.effects + [j])[|s.effects|] == j;
        }
      case Matching(m, now) =>
        if Match(s, m, now).Ok? {
          assert (s.effects + [Match(s, m, now).value.1])[|s.effects|] == Match(s, m, now).value.1;
        }
      case _ =>
    }
  }

  /** How often the run finds order `k` in production when its callback comes. */
  function Repeats(s: Store, es: seq<Event>, k: nat): nat
    decreases es
  {
    if es == [] then 0 else (if PaysInProduction(s, es[0], k) then 1 else 0) + Repeats(Step(s, es[0]), es[1..], k)
  }

  /** Over any run, the further dispatches of a settled order are exactly those callbacks. */
  lemma {:induction false} DispatchesCounted(s: Store, es: seq<Event>, k: nat)
    requires Valid(s) && k < |s.orders| && s.orders[k].payment == Settled
    ensures multiset(Run(s, es).effects)[k] == multiset(s.effects)[k] + Repeats(s, es, k)
    decreases es
  {
    hide Step, Valid, PaysInProduction;
    if es != [] {
      var t := Step(s, es[0]);
      StepKeeps(s, es[0]);
      LaterOrder(s, t, k);
      DispatchedAgainExactly(s, es[0], k);
      DispatchesCounted(t, es[1..], k);
    }
  }

  const ENABLED: Shop := Shop(true, 0, [], 5, 10, 1)

  /** One transaction reported before and after activation: its side effects are enqueued twice. */
  lemma NotifiedTwice()
    ensures Valid(CALENDAR)
    ensures Run(CALENDAR, [Paying(CALLBACK, 9), Activating(ENABLED, 9), Paying(CALLBACK, 10)]).effects == [0, 0]
  {
    hide WakeJob, Recorded, Valid;
    CounterIsValid();
    var es := [Paying(CALLBACK, 9), Activating(ENABLED, 9), Paying(CALLBACK, 10)];
    var s1 := Step(CALENDAR, es[0]);
    SoleOrderFound(CALENDAR);
    var s2 := Step(s1, es[1]);
    assert s2.orders[0].status == InProduction;
    SoleOrderFound(s2);
    var s3 := Step(s2, es[2]);
    assert es[1..] == [es[1], es[2]] && es[1..][1..] == [es[2]] && es[1..][1..][1..] == [];
    assert Run(CALENDAR, es) == Run(s1, es[1..]) == Run(s2, es[1..][1..]) == Run(s3, []) == s3;
  }
}
