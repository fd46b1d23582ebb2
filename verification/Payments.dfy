/** The WeChat payment notification (app/services/payments.py). */
module Payments {
  import opened Wrappers
  import opened Tables
  import Orders
  import PrintJobs

  datatype PaymentError = BadSignature | OrderNotFound | UnsupportedCurrency | AmountMismatch

  /** A signed notification; `signatureOk` is the outcome of the HMAC comparison. */
  datatype Notification = Notification(
    signatureOk: bool, number: string, txn: string, amount: int, currency: string, channel: string, paidAt: int)

  function FindTxn(payments: seq<PaymentRecord>, txn: string): (r: Option<nat>)
    ensures r.Some? ==> r.value < |payments| && payments[r.value].txn == Some(txn)
    ensures r.None? ==> forall i :: 0 <= i < |payments| ==> payments[i].txn != Some(txn)
  {
    First(payments, (p: PaymentRecord) => p.txn == Some(txn))
  }

  function FindJob(jobs: seq<Job>, order: nat): (r: Option<nat>)
    ensures r.Some? ==> r.value < |jobs| && jobs[r.value].order == order
    ensures r.None? ==> forall j :: 0 <= j < |jobs| ==> jobs[j].order != order
  {
    First(jobs, (job: Job) => job.order == order)
  }

  /** The order's job, inserted if it has none, is due now unless it is running or done. */
  function WakeJob(jobs: seq<Job>, order: nat, now: int): seq<Job> {
    match FindJob(jobs, order)
    case None => jobs + [Job(order, JobPending, 0, Some(now))]
    case Some(j) => jobs[j := PrintJobs.Kick(jobs[j], now)]
  }

  method EnsureJobDue(db: Session, order: nat, now: int)
    modifies db
    ensures db.View() == old(db.View()).(jobs := WakeJob(old(db.jobs), order, now))
  {
    var found := FindJob(db.jobs, order);
    if found.None? {
      db.jobs := db.jobs + [Job(order, JobPending, 0, None)];
      var j := |db.jobs| - 1;
      db.jobs := db.jobs[j := db.jobs[j].(nextTry := Some(now))];
      assert db.jobs == WakeJob(old(db.jobs), order, now);
      return;
    }
    var job := db.jobs[found.value];
    if job.status == JobFailed {
      db.jobs := db.jobs[found.value := job.(status := JobPending, nextTry := Some(now))];
    } else if job.status == JobPending {
      db.jobs := db.jobs[found.value := job.(nextTry := Some(now))];
    }
    assert db.jobs == WakeJob(old(db.jobs), order, now);
  }

  /** Inserted with ON CONFLICT (txn_id) DO NOTHING. */
  function Recorded(payments: seq<PaymentRecord>, n: Notification, k: nat): seq<PaymentRecord> {
    if FindTxn(payments, n.txn).Some? then payments
    else payments + [PaymentRecord(false, n.channel, n.amount, Some(n.txn), None, Some(k), AutoMatched, None, n.paidAt)]
  }

  function MarkPaid(o: Order, channel: string): Order {
    o.(status := Paid, payment := Settled, channel := if o.channel.None? then Some(channel) else o.channel)
  }

  /** Any order that is not `paid` becomes so: waiting, cancelled or already in production. */
  function Notify(s: Store, n: Notification, now: int): Result<Store, PaymentError> {
    if !n.signatureOk then Err(BadSignature)
    else
      match Orders.FindOrder(s.orders, n.number)
      case None => Err(OrderNotFound)
      case Some(k) =>
        if n.currency != "CNY" then Err(UnsupportedCurrency)
        else if s.orders[k].total != n.amount then Err(AmountMismatch)
        else
          Ok(s.(orders := s.orders[k := MarkPaid(s.orders[k], n.channel)],
                payments := Recorded(s.payments, n, k),
                jobs := WakeJob(s.jobs, k, now),
                effects := if s.orders[k].status != Paid then s.effects + [k] else s.effects))
  }

  /** Settles the order field by field; the result says whether its status changed. */
  method SettleOrder(db: Session, k: nat, channel: string) returns (statusChanged: bool)
    requires k < |db.orders|
    modifies db
    ensures db.View() == old(db.View()).(orders := old(db.orders)[k := MarkPaid(old(db.orders)[k], channel)])
    ensures statusChanged == (old(db.orders)[k].status != Paid)
  {
    statusChanged := db.orders[k].status != Paid;
    if db.orders[k].payment != Settled {
      db.orders := db.orders[k := db.orders[k].(payment := Settled)];
    }
    if statusChanged {
      db.orders := db.orders[k := db.orders[k].(status := Paid)];
    }
    if db.orders[k].channel.None? {
      db.orders := db.orders[k := db.orders[k].(channel := Some(channel))];
    }
    assert db.orders == old(db.orders)[k := MarkPaid(old(db.orders)[k], channel)];
  }

  method HandleWechatNotification(db: Session, n: Notification, now: int) returns (problem: Option<PaymentError>)
    modifies db
    ensures match Notify(old(db.View()), n, now)
      case Err(e) => problem == Some(e) && db.View() == old(db.View())
      case Ok(s) => problem == None && db.View() == s
  {
    hide WakeJob, MarkPaid, Orders.FindOrder;
    if !n.signatureOk {
      return Some(BadSignature);
    }
    var found := Orders.FindOrder(db.orders, n.number);
    if found.None? {
      return Some(OrderNotFound);
    }
    var k := found.value;
    if n.currency != "CNY" {
      return Some(UnsupportedCurrency);
    }
    if db.orders[k].total != n.amount {
      return Some(AmountMismatch);
    }
    var statusChanged := SettleOrder(db, k, n.channel);
    if FindTxn(db.payments, n.txn).None? {
      db.payments := db.payments +
        [PaymentRecord(false, n.channel, n.amount, Some(n.txn), None, Some(k), AutoMatched, None, n.paidAt)];
    }
    EnsureJobDue(db, k, now);
    if statusChanged {
      db.effects := db.effects + [k];
    }
    return None;
  }
}
