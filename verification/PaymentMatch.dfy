/** Matching a static-QR payment to an order (app/services/payment_match.py). */
module PaymentMatch {
  import opened Wrappers
  import opened Tables
  import opened Sorting
  import opened Payments
  import Orders

  datatype MatchError =
    | RecordAlreadyMatched | NoCandidate | Ambiguous(candidates: seq<nat>) | NoSuchOrder | TotalMismatch | AlreadyPaid

  /**
   The administrator's request and the configured window.  `flushed` says whether
   assignments to a record found by its transaction id are in the row when
   `session.refresh` reads it again; without autoflush they are lost.
   */
  datatype MatchRequest = MatchRequest(
    qrSession: string, amount: int, paidAt: int, txn: Option<string>, force: Option<nat>, admin: int, windowMinutes: int,
    flushed: bool)

  function Low(req: MatchRequest): int { req.paidAt - Width(req) }

  function High(req: MatchRequest): int { req.paidAt + Width(req) }

  function Width(req: MatchRequest): int {
    MINUTE * if req.windowMinutes > 1 then req.windowMinutes else 1
  }

  // ---------- the payment record ----------

  function FreshRecord(req: MatchRequest): PaymentRecord {
    PaymentRecord(false, "static_qr", req.amount, req.txn, Some(req.qrSession), None, Unmatched, None, req.paidAt)
  }

  predicate Eligible(p: PaymentRecord, req: MatchRequest) {
    && !p.isRefund && p.channel == "static_qr" && p.match_ == Unmatched && p.amount == req.amount
    && Low(req) <= p.paidAt <= High(req)
    && (p.qrSession.None? || p.qrSession == Some(req.qrSession))
  }

  /** The earliest eligible record among the first `n`. */
  function Earliest(payments: seq<PaymentRecord>, req: MatchRequest, n: nat): (r: Option<nat>)
    requires n <= |payments|
    ensures r.Some? ==> r.value < n && Eligible(payments[r.value], req)
    ensures forall i :: 0 <= i < n && Eligible(payments[i], req) ==> r.Some? && payments[r.value].paidAt <= payments[i].paidAt
  {
    if n == 0 then None
    else
      var before := Earliest(payments, req, n - 1);
      if Eligible(payments[n - 1], req) && (before.None? || payments[n - 1].paidAt < payments[before.value].paidAt)
      then Some(n - 1) else before
  }

  function Acquire(payments: seq<PaymentRecord>, req: MatchRequest): (r: Result<(seq<PaymentRecord>, nat), MatchError>)
    ensures r.Ok? ==> r.value.1 < |r.value.0|
  {
    if req.txn.Some? then
      match FindTxn(payments, req.txn.value)
      case None => Ok((payments + [FreshRecord(req)], |payments|))
      case Some(i) =>
        if payments[i].match_ != Unmatched then Err(RecordAlreadyMatched)
        else Ok((if req.flushed then payments[i := payments[i].(amount := req.amount, qrSession := Some(req.qrSession))]
                 else payments, i))
    else
      match Earliest(payments, req, |payments|)
      case None => Ok((payments + [FreshRecord(req)], |payments|))
      case Some(i) => Ok((payments[i := payments[i].(qrSession := Some(req.qrSession))], i))
  }

  method AcquirePaymentRecord(db: Session, req: MatchRequest) returns (r: Result<nat, MatchError>)
    modifies db
    ensures match Acquire(old(db.payments), req)
      case Err(e) => r == Err(e) && db.View() == old(db.View())
      case Ok((payments, i)) => r == Ok(i) && db.View() == old(db.View()).(payments := payments)
  {
    if req.txn.Some? {
      var found := FindTxn(db.payments, req.txn.value);
      if found.None? {
        db.payments := db.payments + [FreshRecord(req)];
        return Ok(|db.payments| - 1);
      }
      var i := found.value;
      if db.payments[i].match_ != Unmatched {
        return Err(RecordAlreadyMatched);
      }
      var row := db.payments[i];
      db.payments := db.payments[i := row.(amount := req.amount, qrSession := Some(req.qrSession))];
      if !req.flushed {
        db.payments := db.payments[i := row];
      }
      return Ok(i);
    }
    var earliest := Earliest(db.payments, req, |db.payments|);
    if earliest.Some? {
      var i := earliest.value;
      if db.payments[i].qrSession.None? {
        db.payments := db.payments[i := db.payments[i].(qrSession := Some(req.qrSession))];
      }
      assert db.payments == old(db.payments)[i := old(db.payments)[i].(qrSession := Some(req.qrSession))];
      return Ok(i);
    }
    db.payments := db.payments + [FreshRecord(req)];
    return Ok(|db.payments| - 1);
  }

  // ---------- the candidate orders ----------

  predicate Waiting(o: Order, req: MatchRequest) {
    o.payment == Pending && o.status == PendingPayment && Low(req) <= o.createdAt <= High(req)
  }

  function WaitingBelow(orders: seq<Order>, req: MatchRequest, n: nat): seq<nat>
    requires n <= |orders|
  {
    if n == 0 then []
    else WaitingBelow(orders, req, n - 1) + (if Waiting(orders[n - 1], req) then [n - 1] else [])
  }

  function WithTotal(orders: seq<Order>, amount: int, ids: seq<nat>): seq<nat> {
    if ids == [] then []
    else
      var last := ids[|ids| - 1];
      WithTotal(orders, amount, ids[..|ids| - 1]) +
      (if last < |orders| && orders[last].total == amount then [last] else [])
  }

  /** Waiting orders of the window with exactly that total, oldest first. */
  function Candidates(orders: seq<Order>, req: MatchRequest): seq<nat> {
    WithTotal(orders, req.amount, Sort(Orders.Age(orders), WaitingBelow(orders, req, |orders|)))
  }

  method FindCandidateOrders(db: Session, req: MatchRequest) returns (ids: seq<nat>)
    ensures ids == Candidates(db.orders, req)
  {
    var rows := Sort(Orders.Age(db.orders), WaitingBelow(db.orders, req, |db.orders|));
    ids := [];
    for i := 0 to |rows|
      invariant ids == WithTotal(db.orders, req.amount, rows[..i])
    {
      assert rows[..i + 1][..i] == rows[..i];
      if rows[i] < |db.orders| && db.orders[rows[i]].total == req.amount {
        ids := ids + [rows[i]];
      }
    }
    assert rows[..|rows|] == rows;
  }

  // ---------- the match ----------

  function PickOrder(orders: seq<Order>, req: MatchRequest): Result<nat, MatchError> {
    if req.force.Some? then
      if req.force.value < |orders| then Ok(req.force.value) else Err(NoSuchOrder)
    else
      var ids := Candidates(orders, req);
      if ids == [] then Err(NoCandidate) else if |ids| > 1 then Err(Ambiguous(ids)) else Ok(ids[0])
  }

  function Match(s: Store, req: MatchRequest, now: int): Result<(Store, nat), MatchError> {
    var (payments, i) :- Acquire(s.payments, req);
    var k :- PickOrder(s.orders, req);
    if k >= |s.orders| then Err(NoSuchOrder)
    else if s.orders[k].total != req.amount then Err(TotalMismatch)
    else if s.orders[k].payment == Settled then Err(AlreadyPaid)
    else
      var status := if req.force.Some? then ManualMatched else AutoMatched;
      Ok((s.(payments := payments[i := payments[i].(match_ := status, order := Some(k), matchedBy := Some(req.admin),
                                                    qrSession := Some(req.qrSession))],
             orders := s.orders[k := s.orders[k].(status := Paid, payment := Settled, channel := Some("static_qr"))],
             jobs := WakeJob(s.jobs, k, now),
             effects := s.effects + [k]),
          k))
  }

  method MatchPayment(db: Session, req: MatchRequest, now: int) returns (r: Result<nat, MatchError>)
    modifies db
    ensures match Match(old(db.View()), req, now)
      case Err(e) => r == Err(e) && db.View() == old(db.View())
      case Ok((s, k)) => r == Ok(k) && db.View() == s
  {
    hide Acquire, Candidates, WakeJob;
    var saved := db.View();
    var record := AcquirePaymentRecord(db, req);
    if record.Err? {
      return Err(record.error);
    }
    var i := record.value;
    assert i < |db.payments| by {
      AcquiredInRange(saved.payments, req);
    }
    var k: nat;
    if req.force.Some? {
      if req.force.value >= |db.orders| {
        db.Rollback(saved);
        return Err(NoSuchOrder);
      }
      k := req.force.value;
    } else {
      var ids := FindCandidateOrders(db, req);
      if ids == [] {
        db.Rollback(saved);
        return Err(NoCandidate);
      }
      if |ids| > 1 {
        db.Rollback(saved);
        return Err(Ambiguous(ids));
      }
      k := ids[0];
    }
    if k >= |db.orders| {
      db.Rollback(saved);
      return Err(NoSuchOrder);
    }
    if db.orders[k].total != req.amount {
      db.Rollback(saved);
      return Err(TotalMismatch);
    }
    if db.orders[k].payment == Settled {
      db.Rollback(saved);
      return Err(AlreadyPaid);
    }
    var status := if req.force.Some? then ManualMatched else AutoMatched;
    db.payments := db.payments[i := db.payments[i].(match_ := status, order := Some(k), matchedBy := Some(req.admin),
                                                    qrSession := Some(req.qrSession))];
    db.orders := db.orders[k := db.orders[k].(status := Paid, payment := Settled, channel := Some("static_qr"))];
    EnsureJobDue(db, k, now);
    db.effects := db.effects + [k];
    return Ok(k);
  }

  lemma AcquiredInRange(payments: seq<PaymentRecord>, req: MatchRequest)
    requires Acquire(payments, req).Ok?
    ensures Acquire(payments, req).value.1 < |Acquire(payments, req).value.0|
  {
  }

  // ---------- which order a match picks ----------

  lemma {:induction false} WaitingBelowFacts(orders: seq<Order>, req: MatchRequest, n: nat)
    requires n <= |orders|
    ensures forall k: nat :: k in WaitingBelow(orders, req, n) <==> k < n && Waiting(orders[k], req)
    ensures NoDups(WaitingBelow(orders, req, n))
  {
    if n > 0 {
      WaitingBelowFacts(orders, req, n - 1);
      assert n - 1 !in WaitingBelow(orders, req, n - 1);
    }
  }

  lemma {:induction false} WithTotalFacts(orders: seq<Order>, amount: int, ids: seq<nat>)
    requires NoDups(ids)
    ensures forall k: nat :: k in WithTotal(orders, amount, ids) <==> k in ids && k < |orders| && orders[k].total == amount
    ensures NoDups(WithTotal(orders, amount, ids))
  {
    if ids != [] {
      var init, last := ids[..|ids| - 1], ids[|ids| - 1];
      assert ids == init + [last];
      WithTotalFacts(orders, amount, init);
      assert last !in init;
    }
  }

  lemma {:induction false} WithTotalSorted(orders: seq<Order>, amount: int, ids: seq<nat>)
    requires NoDups(ids) && Sorted(Orders.Age(orders), ids)
    ensures Sorted(Orders.Age(orders), WithTotal(orders, amount, ids))
  {
    if ids != [] {
      var init, last := ids[..|ids| - 1], ids[|ids| - 1];
      WithTotalSorted(orders, amount, init);
      WithTotalFacts(orders, amount, init);
      var kept := WithTotal(orders, amount, init);
      hide Orders.Age, NoDups;
      forall i | 0 <= i < |kept|
        ensures Orders.Age(orders)(kept[i], last)
      {
        assert kept[i] in init;
      }
    }
  }

  lemma WaitingRows(orders: seq<Order>, req: MatchRequest)
    ensures var rows := Sort(Orders.Age(orders), WaitingBelow(orders, req, |orders|));
            && NoDups(rows) && Sorted(Orders.Age(orders), rows)
            && forall k: nat :: k in rows <==> k < |orders| && Waiting(orders[k], req)
  {
    var below := WaitingBelow(orders, req, |orders|);
    var rows := Sort(Orders.Age(orders), below);
    WaitingBelowFacts(orders, req, |orders|);
    SortPermutes(Orders.Age(orders), below);
    SortSorts(Orders.Age(orders), below);
    CountedOnce(below, rows);
    hide Sort, WaitingBelow;
    forall k: nat
      ensures k in rows <==> k in below
    {
      SortMembers(Orders.Age(orders), below, k);
    }
  }

  lemma CandidatesFacts(orders: seq<Order>, req: MatchRequest)
    ensures forall k: nat :: k in Candidates(orders, req) <==>
      k < |orders| && IsCandidate(orders[k], req)
    ensures NoDups(Candidates(orders, req))
    ensures Sorted(Orders.Age(orders), Candidates(orders, req))
  {
    var rows := Sort(Orders.Age(orders), WaitingBelow(orders, req, |orders|));
    WaitingRows(orders, req);
    WithTotalFacts(orders, req.amount, rows);
    WithTotalSorted(orders, req.amount, rows);
    hide Sort, WaitingBelow, NoDups, Sorted, WithTotal, Orders.Age;
  }

  /** The oldest first, equally old ones by id. */
  lemma CandidatesInOrder(orders: seq<Order>, req: MatchRequest, a: nat, b: nat)
    requires a < b < |Candidates(orders, req)|
    ensures var i, j := Candidates(orders, req)[a], Candidates(orders, req)[b];
            && i < |orders| && j < |orders|
            && (orders[i].createdAt < orders[j].createdAt || (orders[i].createdAt == orders[j].createdAt && i < j))
  {
    CandidatesFacts(orders, req);
    hide Candidates;
    var ids := Candidates(orders, req);
    assert ids[a] in ids && ids[b] in ids && ids[a] != ids[b] && Orders.Age(orders)(ids[a], ids[b]);
  }

  /** At most the configured minutes, at least one, before or after the payment. */
  predicate InWindow(instant: int, req: MatchRequest) {
    var width := MINUTE * if req.windowMinutes >= 1 then req.windowMinutes else 1;
    req.paidAt - width <= instant <= req.paidAt + width
  }

  /** An unpaid, waiting order of the window with exactly the amount. */
  predicate IsCandidate(o: Order, req: MatchRequest) {
    o.payment == Pending && o.status == PendingPayment && InWindow(o.createdAt, req) && o.total == req.amount
  }

  ghost predicate OnlyCandidate(orders: seq<Order>, req: MatchRequest, k: nat) {
    && k < |orders| && IsCandidate(orders[k], req)
    && forall k': nat :: k' < |orders| && IsCandidate(orders[k'], req) ==> k' == k
  }

  /** An unforced match succeeds exactly on the one waiting order of the window with that total. */
  lemma UnforcedPicksOnly(orders: seq<Order>, req: MatchRequest, k: nat)
    requires req.force.None?
    ensures PickOrder(orders, req) == Ok(k) <==> OnlyCandidate(orders, req, k)
  {
    hide Candidates;
    var ids := Candidates(orders, req);
    CandidatesFacts(orders, req);
    if |ids| > 1 {
      assert ids[0] in ids && ids[1] in ids && ids[0] != ids[1];
    }
    if ids != [] {
      assert ids[0] in ids;
    }
  }

  // ---------- which record a match takes ----------

  /** A record the request may take without naming its transaction. */
  predicate Fits(p: PaymentRecord, req: MatchRequest) {
    && !p.isRefund && p.channel == "static_qr" && p.match_ == Unmatched && p.amount == req.amount
    && InWindow(p.paidAt, req) && (p.qrSession.None? || p.qrSession == Some(req.qrSession))
  }

  /** Refused exactly when the named transaction is recorded and no longer unmatched. */
  lemma AcquireRefusesExactly(payments: seq<PaymentRecord>, req: MatchRequest)
    requires forall i, j :: 0 <= i < j < |payments| && payments[i].txn.Some? ==> payments[i].txn != payments[j].txn
    ensures Acquire(payments, req).Err? <==>
            req.txn.Some? && exists i :: 0 <= i < |payments| && payments[i].txn == req.txn && payments[i].match_ != Unmatched
  {
  }

  /**
   The record taken is the one of the named transaction, or else the earliest that
   fits; a new one is entered exactly when there is none.
   */
  lemma AcquireTakes(payments: seq<PaymentRecord>, req: MatchRequest)
    requires Acquire(payments, req).Ok?
    ensures var (after, i) := Acquire(payments, req).value;
            if i == |payments| then
              && after == payments + [PaymentRecord(false, "static_qr", req.amount, req.txn, Some(req.qrSession),
                                                    None, Unmatched, None, req.paidAt)]
              && forall j :: 0 <= j < |payments| ==>
                   if req.txn.Some? then payments[j].txn != req.txn else !Fits(payments[j], req)
            else
              && i < |payments| == |after| && (forall j :: 0 <= j < |payments| && j != i ==> after[j] == payments[j])
              && if req.txn.Some? then
                   && payments[i].txn == req.txn && payments[i].match_ == Unmatched
                   && after[i] == if req.flushed then payments[i].(amount := req.amount, qrSession := Some(req.qrSession))
                                  else payments[i]
                 else Fits(payments[i], req) && after[i] == payments[i].(qrSession := Some(req.qrSession)) &&
                      forall j :: 0 <= j < |payments| && Fits(payments[j], req) ==> payments[i].paidAt <= payments[j].paidAt
  {
    forall p: PaymentRecord
      ensures Eligible(p, req) <==> Fits(p, req)
    {
    }
    hide Eligible, Fits;
  }
}
