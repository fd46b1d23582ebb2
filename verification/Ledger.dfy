/** When the payment ledger and the orders agree in amount, and which settled orders it does not record. */
module Ledger {
  import opened Wrappers
  import opened Tables
  import opened Orders
  import opened Invariants
  import opened Payments
  import opened PaymentMatch
  import opened Steps
  import opened Engine
  import opened Inventories
  import opened Reservations
  import opened Outcomes
  import PrintJobs

  // ---------- amounts ----------

  ghost predicate AmountOk(p: PaymentRecord, orders: seq<Order>) {
    IsMatched(p) && p.order.Some? && p.order.value < |orders| ==> orders[p.order.value].total == p.amount
  }

  /** Every matched record has the total of its order as its amount. */
  ghost predicate AmountsOk(s: Store) {
    forall i :: 0 <= i < |s.payments| ==> AmountOk(s.payments[i], s.orders)
  }

  /** The order the request picks can take its payment. */
  predicate Payable(orders: seq<Order>, m: MatchRequest) {
    && PickOrder(orders, m).Ok? && PickOrder(orders, m).value < |orders|
    && orders[PickOrder(orders, m).value].total == m.amount
    && orders[PickOrder(orders, m).value].payment == Pending
  }

  /** A match of a payable order with an unmatched record that has its transaction id and keeps another amount. */
  predicate KeepsOldAmount(s: Store, e: Event) {
    && e.Matching? && Payable(s.orders, e.m) && e.m.txn.Some? && !e.m.flushed
    && var i := FindTxn(s.payments, e.m.txn.value);
       i.Some? && s.payments[i.value].match_ == Unmatched && s.payments[i.value].amount != e.m.amount
  }

  lemma AmountsStay(s: Store, orders: seq<Order>, payments: seq<PaymentRecord>, i: nat)
    requires Valid(s) && OrdersLater(s.orders, orders) && i < |s.payments| <= |payments| && payments[i] == s.payments[i]
    ensures AmountOk(s.payments[i], s.orders) <==> AmountOk(payments[i], orders)
  {
  }

  lemma MatchedAmount(s: Store, m: MatchRequest, now: int, i: nat)
    requires Valid(s) && AmountsOk(s) && Match(s, m, now).Ok? && OrdersLater(s.orders, Match(s, m, now).value.0.orders)
    requires i < |Match(s, m, now).value.0.payments|
    ensures var t := Match(s, m, now).value.0;
            AmountOk(t.payments[i], t.orders) <==> !(KeepsOldAmount(s, Matching(m, now)) && i == Acquire(s.payments, m).value.1)
  {
  }

  lemma NotifiedAmount(s: Store, n: Notification, now: int, i: nat)
    requires Valid(s) && AmountsOk(s) && Notify(s, n, now).Ok? && OrdersLater(s.orders, Notify(s, n, now).value.orders)
    requires i < |Notify(s, n, now).value.payments|
    ensures var t := Notify(s, n, now).value; AmountOk(t.payments[i], t.orders)
  {
  }

  /** One step breaks the agreement in amount exactly when it is such a match. */
  lemma AmountsStepExactly(s: Store, e: Event)
    requires Valid(s) && AmountsOk(s)
    ensures AmountsOk(Step(s, e)) <==> !KeepsOldAmount(s, e)
  {
    hide Valid, Notify, Match, AmountOk;
    StepKeeps(s, e);
    var t := Step(s, e);
    match e {
      case Paying(n, now) =>
        if Notify(s, n, now).Ok? {
          forall i | 0 <= i < |t.payments|
            ensures AmountOk(t.payments[i], t.orders)
          {
            NotifiedAmount(s, n, now, i);
          }
        }
      case Matching(m, now) =>
        KeepingIsMatching(s, m, now);
        if Match(s, m, now).Ok? {
          MatchedInRange(s, m, now);
          forall i | 0 <= i < |t.payments|
            ensures AmountOk(t.payments[i], t.orders) <==> !(KeepsOldAmount(s, e) && i == Acquire(s.payments, m).value.1)
          {
            MatchedAmount(s, m, now, i);
          }
        }
      case _ =>
        EffectsOf(s, e);
        forall i | 0 <= i < |t.payments|
          ensures AmountOk(t.payments[i], t.orders)
        {
          AmountsStay(s, t.orders, t.payments, i);
        }
    }
  }

  lemma KeepingIsMatching(s: Store, m: MatchRequest, now: int)
    ensures KeepsOldAmount(s, Matching(m, now)) ==> Match(s, m, now).Ok?
  {
    hide PickOrder;
  }

  lemma MatchedInRange(s: Store, m: MatchRequest, now: int)
    requires Match(s, m, now).Ok?
    ensures Acquire(s.payments, m).Ok? && Acquire(s.payments, m).value.1 < |Match(s, m, now).value.0.payments|
  {
  }

  /** Some event of the run is such a match. */
  predicate Misrecords(s: Store, es: seq<Event>)
    decreases es
  {
    es != [] && (KeepsOldAmount(s, es[0]) || Misrecords(Step(s, es[0]), es[1..]))
  }

  lemma DisagreementStays(s: Store, t: Store)
    requires Valid(s) && Later(s, t) && !AmountsOk(s)
    ensures !AmountsOk(t)
  {
  }

  /** Over any run every matched record keeps the total of its order as its amount exactly when no event is such a match. */
  lemma {:induction false} AmountsAgreeExactly(s: Store, es: seq<Event>)
    requires Valid(s) && AmountsOk(s)
    ensures AmountsOk(Run(s, es)) <==> !Misrecords(s, es)
    decreases es
  {
    hide Step, Valid, AmountsOk, KeepsOldAmount, Later;
    if es != [] {
      var t := Step(s, es[0]);
      StepKeeps(s, es[0]);
      AmountsStepExactly(s, es[0]);
      if AmountsOk(t) {
        AmountsAgreeExactly(t, es[1..]);
      } else {
        RunKeeps(t, es[1..]);
        DisagreementStays(t, Run(t, es[1..]));
      }
    }
  }

  /** No unmatched record has a transaction id: none is entered by a step of the engine. */
  ghost predicate NoLooseTxn(s: Store) {
    forall i :: 0 <= i < |s.payments| && s.payments[i].match_ == Unmatched ==> s.payments[i].txn.None?
  }

  lemma NoLooseStep(s: Store, e: Event)
    requires NoLooseTxn(s)
    ensures NoLooseTxn(Step(s, e)) && !KeepsOldAmount(s, e)
  {
    hide PickOrder, WakeJob, Orders.FindOrder;
    EffectsOf(s, e);
    match e {
      case Paying(n, now) =>
      case Matching(m, now) =>
        if Match(s, m, now).Ok? {
          var (payments', i) := Acquire(s.payments, m).value;
          AcquireFacts(s.payments, m, payments', i);
        }
      case _ =>
    }
  }

  /** From such a state, an empty ledger for one, amounts agree in every reachable state. */
  lemma {:induction false} AmountsAgreeFromOpening(s: Store, es: seq<Event>)
    requires Valid(s) && AmountsOk(s) && NoLooseTxn(s)
    ensures AmountsOk(Run(s, es)) && NoLooseTxn(Run(s, es))
    decreases es
  {
    hide Step, Valid, AmountsOk, NoLooseTxn, KeepsOldAmount;
    if es != [] {
      StepKeeps(s, es[0]);
      NoLooseStep(s, es[0]);
      AmountsStepExactly(s, es[0]);
      AmountsAgreeFromOpening(Step(s, es[0]), es[1..]);
    }
  }

  const IMPORTED: Store :=
    COUNTER.(payments := [PaymentRecord(false, "static_qr", 1700, Some("t"), None, None, Unmatched, None, 0)])

  const MATCHED: MatchRequest := MatchRequest("qr", 1800, 0, Some("t"), Some(0), 5, 10, false)

  lemma ImportedIsValid()
    ensures Valid(IMPORTED) && AmountsOk(IMPORTED)
  {
  }

  /** An imported record of seventeen yuan, found by its transaction id, is matched to an order of eighteen. */
  lemma OldAmountKept()
    ensures Valid(IMPORTED) && AmountsOk(IMPORTED) && KeepsOldAmount(IMPORTED, Matching(MATCHED, 9))
    ensures !AmountsOk(Run(IMPORTED, [Matching(MATCHED, 9)]))
  {
    var es := [Matching(MATCHED, 9)];
    ImportedIsValid();
    assert FindTxn(IMPORTED.payments, "t") == Some(0);
    hide Valid, AmountsOk, Step;
    assert es[1..] == [];
    assert Misrecords(IMPORTED, es);
    AmountsAgreeExactly(IMPORTED, es);
  }

  // ---------- settled orders without a record ----------

  predicate RecordsOrder(p: PaymentRecord, k: nat) {
    IsMatched(p) && p.order == Some(k)
  }

  ghost predicate Booked(s: Store, k: nat) {
    exists i :: 0 <= i < |s.payments| && RecordsOrder(s.payments[i], k)
  }

  /** The order is settled and no matched record says so. */
  ghost predicate Unrecorded(s: Store, k: nat) {
    k < |s.orders| && s.orders[k].payment == Settled && !Booked(s, k)
  }

  /** Settled at the counter, or by a callback whose transaction id the ledger already has. */
  predicate SettlesUnrecorded(s: Store, e: Event, k: nat) {
    || (e.Creating? && Inserts(s, e, e.req.key) && k == |s.orders| && e.req.pos.Some? && Immediate(e.req.pos.value.channel))
    || (e.Paying? && Accepts(s, e.n, k) && s.orders[k].payment == Pending && FindTxn(s.payments, e.n.txn).Some?)
  }

  lemma PaymentUnchanged(s: Store, e: Event, k: nat)
    requires k < |s.orders| && !e.Paying? && !e.Matching?
    ensures k < |Step(s, e).orders| && Step(s, e).orders[k].payment == s.orders[k].payment
  {
    hide Create, IssueSession, Restored, StaleIds;
    hide PrintJobs.ClaimJob, PrintJobs.FinishJob, PrintJobs.Recover;
    match e {
      case Creating(shop, req) => CreateLeaves(s, shop, req, k);
      case Sweeping(cutoff, limit) => SweepTakesOldest(s, cutoff, limit, k);
      case _ =>
    }
  }

  lemma NewOrderPayment(s: Store, shop: Shop, req: CreateRequest)
    ensures var t := Step(s, Creating(shop, req));
            if Inserts(s, Creating(shop, req), req.key) then
              && |t.orders| == |s.orders| + 1
              && (t.orders[|s.orders|].payment == Settled <==> req.pos.Some? && Immediate(req.pos.value.channel))
            else |t.orders| == |s.orders|
  {
  }

  lemma BookedIsSettled(s: Store, k: nat)
    requires Valid(s) && Booked(s, k)
    ensures k < |s.orders| && s.orders[k].payment == Settled
  {
  }

  lemma NotifyBooks(s: Store, n: Notification, now: int, k: nat)
    requires Valid(s) && Notify(s, n, now).Ok?
    ensures Orders.FindOrder(s.orders, n.number).Some?
    ensures var t, j := Notify(s, n, now).value, Orders.FindOrder(s.orders, n.number).value;
            && |t.orders| == |s.orders| && t.orders[j].payment == Settled
            && (k < |s.orders| && k != j ==> t.orders[k] == s.orders[k])
            && (Booked(t, k) <==> Booked(s, k) || (k == j && FindTxn(s.payments, n.txn).None?))
  {
    hide WakeJob;
    var t, j := Notify(s, n, now).value, Orders.FindOrder(s.orders, n.number).value;
    assert forall i :: 0 <= i < |s.payments| ==> t.payments[i] == s.payments[i];
    if FindTxn(s.payments, n.txn).None? {
      assert RecordsOrder(t.payments[|s.payments|], j);
    }
  }

  lemma MatchBooks(s: Store, m: MatchRequest, now: int, k: nat)
    requires Valid(s) && Match(s, m, now).Ok?
    ensures var (t, j) := Match(s, m, now).value;
            && |t.orders| == |s.orders| && j < |s.orders| && t.orders[j].payment == Settled
            && (k < |s.orders| && k != j ==> t.orders[k] == s.orders[k])
            && (Booked(t, k) <==> Booked(s, k) || k == j)
  {
    hide WakeJob, PickOrder, Acquire;
    var (t, j) := Match(s, m, now).value;
    var (payments', i) := Acquire(s.payments, m).value;
    AcquireFacts(s.payments, m, payments', i);
    assert RecordsOrder(t.payments[i], j);
    forall a | 0 <= a < |s.payments| && RecordsOrder(s.payments[a], k)
      ensures t.payments[a] == s.payments[a]
    {
    }
    forall a | 0 <= a < |t.payments| && RecordsOrder(t.payments[a], k) && a != i
      ensures a < |s.payments| && t.payments[a] == s.payments[a]
    {
    }
  }

  /**
   The other direction of the ledger, one step at a time: a settled order is without
   a matched record exactly when it was settled at the counter, or by a callback
   whose transaction id had been recorded for something else.
   */
  lemma UnrecordedExactly(s: Store, e: Event, k: nat)
    requires Valid(s) && !Unrecorded(s, k)
    ensures Unrecorded(Step(s, e), k) <==> SettlesUnrecorded(s, e, k)
  {
    hide Valid, Notify, Match, Create, Booked, Orders.FindOrder;
    EffectsOf(s, e);
    if Booked(s, k) {
      BookedIsSettled(s, k);
    }
    match e {
      case Creating(shop, req) =>
        NewOrderPayment(s, shop, req);
        SamePaymentsBook(s, Step(s, e), k);
        if k < |s.orders| {
          PaymentUnchanged(s, e, k);
        }
      case Paying(n, now) =>
        ValidOrders(s);
        if k < |s.orders| {
          AcceptsIsOk(s, n, now, k);
        }
        if Notify(s, n, now).Ok? {
          NotifyBooks(s, n, now, k);
        }
      case Matching(m, now) =>
        if Match(s, m, now).Ok? {
          MatchBooks(s, m, now, k);
        }
      case _ =>
        SamePaymentsBook(s, Step(s, e), k);
        SameOrderCount(s, e);
        if k < |s.orders| {
          PaymentUnchanged(s, e, k);
        }
    }
  }

  /** A callback for the order whose transaction id is new. */
  predicate RecordsLater(s: Store, e: Event, k: nat) {
    e.Paying? && Accepts(s, e.n, k) && FindTxn(s.payments, e.n.txn).None?
  }

  lemma UnrecordedUntil(s: Store, e: Event, k: nat)
    requires Valid(s) && Unrecorded(s, k)
    ensures Unrecorded(Step(s, e), k) <==> !RecordsLater(s, e, k)
  {
    hide Valid, Notify, Create, Booked, Orders.FindOrder, Acquire, PickOrder;
    EffectsOf(s, e);
    StepKeeps(s, e);
    assert OrderLater(s.orders[k], Step(s, e).orders[k]);
    match e {
      case Paying(n, now) =>
        ValidOrders(s);
        AcceptsIsOk(s, n, now, k);
        if Notify(s, n, now).Ok? {
          NotifyBooks(s, n, now, k);
        }
      case Matching(m, now) =>
        if Match(s, m, now).Ok? {
          MatchBooks(s, m, now, k);
        }
      case _ =>
        SamePaymentsBook(s, Step(s, e), k);
    }
  }

  predicate NeverRecorded(s: Store, es: seq<Event>, k: nat)
    decreases es
  {
    es != [] ==> !RecordsLater(s, es[0], k) && NeverRecorded(Step(s, es[0]), es[1..], k)
  }

  /** Some event settles the order without a record, and no later one records it. */
  predicate LeftUnrecorded(s: Store, es: seq<Event>, k: nat)
    decreases es
  {
    es != [] &&
    if SettlesUnrecorded(s, es[0], k) then NeverRecorded(Step(s, es[0]), es[1..], k)
    else LeftUnrecorded(Step(s, es[0]), es[1..], k)
  }

  lemma {:induction false} StaysUnrecorded(s: Store, es: seq<Event>, k: nat)
    requires Valid(s) && Unrecorded(s, k)
    ensures Unrecorded(Run(s, es), k) <==> NeverRecorded(s, es, k)
    decreases es
  {
    hide Step, Valid, Unrecorded, RecordsLater, SettlesUnrecorded;
    if es != [] {
      StepKeeps(s, es[0]);
      UnrecordedUntil(s, es[0], k);
      if RecordsLater(s, es[0], k) {
        RecordedForGood(s, es[0], k);
        RunKeeps(Step(s, es[0]), es[1..]);
        RecordedStays(Step(s, es[0]), Run(Step(s, es[0]), es[1..]), k);
      } else {
        StaysUnrecorded(Step(s, es[0]), es[1..], k);
      }
    }
  }

  lemma RecordedForGood(s: Store, e: Event, k: nat)
    requires Valid(s) && Unrecorded(s, k) && RecordsLater(s, e, k)
    ensures Booked(Step(s, e), k)
  {
    hide Valid, Notify, Booked, Orders.FindOrder;
    ValidOrders(s);
    AcceptsIsOk(s, e.n, e.now, k);
    NotifyBooks(s, e.n, e.now, k);
  }

  lemma RecordedStays(s: Store, t: Store, k: nat)
    requires Later(s, t) && Booked(s, k)
    ensures !Unrecorded(t, k)
  {
    var i :| 0 <= i < |s.payments| && RecordsOrder(s.payments[i], k);
    assert RecordsOrder(t.payments[i], k);
  }

  /**
   Over any run, an order ends up settled without a matched record exactly when some
   event settled it at the counter, or by a callback with a transaction id recorded
   before, and no later callback brought a new one.
   */
  lemma {:induction false} UnrecordedRunExactly(s: Store, es: seq<Event>, k: nat)
    requires Valid(s) && !Unrecorded(s, k)
    ensures Unrecorded(Run(s, es), k) <==> LeftUnrecorded(s, es, k)
    decreases es
  {
    hide Step, Valid, Unrecorded, RecordsLater, SettlesUnrecorded;
    if es != [] {
      StepKeeps(s, es[0]);
      UnrecordedExactly(s, es[0], k);
      if SettlesUnrecorded(s, es[0], k) {
        StaysUnrecorded(Step(s, es[0]), es[1..], k);
      } else {
        UnrecordedRunExactly(Step(s, es[0]), es[1..], k);
      }
    }
  }

  const TWO_WAITING: Store := COUNTER.(orders := [WAITER, WAITER.(number := "m")])

  lemma TwoWaitingIsValid()
    ensures Valid(TWO_WAITING) && !Unrecorded(TWO_WAITING, 1)
  {
  }

  lemma SecondUse(s: Store)
    requires |s.orders| == 2 && s.orders[0].number == "n" && s.orders[1].number == "m"
    ensures Orders.FindOrder(s.orders, "n") == Some(0) && Orders.FindOrder(s.orders, "m") == Some(1)
  {
    assert s.orders[1..][0] == s.orders[1];
  }

  /** One transaction id reported for two orders: both are settled, the second without a record. */
  lemma TransactionReused()
    ensures Valid(TWO_WAITING)
    ensures Unrecorded(Run(TWO_WAITING, [Paying(CALLBACK, 9), Paying(CALLBACK.(number := "m"), 9)]), 1)
  {
    hide Valid, WakeJob;
    TwoWaitingIsValid();
    var es := [Paying(CALLBACK, 9), Paying(CALLBACK.(number := "m"), 9)];
    SecondUse(TWO_WAITING);
    var s1 := Step(TWO_WAITING, es[0]);
    SecondUse(s1);
    assert s1.payments[0].txn == Some("t");
    assert SettlesUnrecorded(s1, es[1], 1) && !SettlesUnrecorded(TWO_WAITING, es[0], 1);
    assert es[1..] == [es[1]] && es[1..][1..] == [];
    assert LeftUnrecorded(s1, es[1..], 1);
    UnrecordedRunExactly(TWO_WAITING, es, 1);
  }

  lemma SamePaymentsBook(s: Store, t: Store, k: nat)
    requires s.payments == t.payments
    ensures Booked(s, k) <==> Booked(t, k)
  {
  }

  lemma ValidOrders(s: Store)
    requires Valid(s)
    ensures OrdersOk(s.orders)
  {
  }

  lemma SameOrderCount(s: Store, e: Event)
    requires !e.Creating? && !e.Paying? && !e.Matching?
    ensures |Step(s, e).orders| == |s.orders|
  {
    hide IssueSession, Restored, StaleIds;
    hide PrintJobs.ClaimJob, PrintJobs.FinishJob, PrintJobs.Recover;
    if e.Sweeping? {
      CancelAllLength(s, [], StaleIds(s.orders, e.cutoff, e.limit));
    }
  }

  lemma {:induction false} CancelAllLength(s: Store, done: seq<nat>, ids: seq<nat>)
    ensures |CancelAll(s, done, ids).0.orders| == |s.orders|
    decreases ids
  {
    hide Restored, Release;
    if ids != [] {
      var (t, ok) := Cancel(s, ids[0]);
      CancelAllLength(t, if ok then done + [ids[0]] else done, ids[1..]);
    }
  }
}
