/**
 The rows the order, stock and payment services share, and the database
 session they change.  A table whose rows are never deleted and whose key is a
 serial number is a sequence, the key being the position; the other tables are
 maps from their key.  Money is in cents, instants are in microseconds.
 */
module Tables {
  import opened Wrappers

  /** The request schema and the column check both demand a positive quantity. */
  type Quantity = q: nat | 0 < q witness 1

  datatype Inventory = InStock | SoldOut

  datatype Product = Product(active: bool, inventory: Inventory, stock: nat, basePrice: int, groups: set<int>)

  datatype SpecOption = SpecOption(group: int, inventory: Inventory, modifier: int)

  datatype CouponKind =
    | FreeAnyDrink
    | AmountOff(amount: real, minimum: Option<real>)
    | PercentageOff(percentage: real, cap: Option<real>)
    | UnsupportedKind

  datatype CouponStatus = Active | Used | Expired | Void

  datatype Coupon = Coupon(owner: int, kind: CouponKind, status: CouponStatus, usedIn: Option<nat>)

  /** One line of a creation or preview request. */
  datatype Line = Line(productId: int, quantity: Quantity, options: seq<int>)

  /** One row of order_items. */
  datatype Item = Item(productId: int, quantity: Quantity, unitPrice: int)

  datatype OrderType = Pickup | Delivery | DineIn

  /** What a creation request carries and its hash covers; the hash is taken to be injective. */
  datatype Payload = Payload(
    lines: seq<Line>, orderType: OrderType, address: Option<string>, notes: Option<string>,
    guest: Option<string>, scheduledAt: Option<int>, couponId: Option<int>)

  datatype OrderStatus = PendingPayment | Paid | InProduction | Cancelled

  datatype PaymentStatus = Pending | Settled

  datatype Order = Order(
    number: string, user: Option<int>, guest: Option<string>, items: seq<Item>, total: nat,
    status: OrderStatus, payment: PaymentStatus, channel: Option<string>, orderType: OrderType,
    isScheduled: bool, scheduledAt: Option<int>, slot: Option<nat>, couponId: Option<int>, createdAt: int)

  datatype Slot = Slot(start: int, end: int, capacity: nat, reserved: nat)

  /** The response stored with an idempotency key. */
  datatype Receipt = Receipt(orderId: nat, number: string, status: OrderStatus, total: nat, items: seq<Item>)

  datatype Scope = CreateScope | GuestScope | OtherScope

  datatype KeyRecord = KeyRecord(scope: Scope, hash: Option<Payload>, snapshot: Option<Receipt>, expiry: Option<int>)

  datatype MatchStatus = Unmatched | AutoMatched | ManualMatched | MatchFailed

  datatype PaymentRecord = PaymentRecord(
    isRefund: bool, channel: string, amount: int, txn: Option<string>, qrSession: Option<string>,
    order: Option<nat>, match_: MatchStatus, matchedBy: Option<int>, paidAt: int)

  datatype JobStatus = JobPending | JobProcessing | JobDone | JobFailed

  datatype Job = Job(order: nat, status: JobStatus, tries: nat, nextTry: Option<int>)

  /**
   All committed rows.  `cancels` lists the orders of the order.auto_cancel audit
   rows and `effects` the orders whose payment side effects were enqueued, both
   oldest first.
   */
  datatype Store = Store(
    products: map<int, Product>, options: map<int, SpecOption>, coupons: map<int, Coupon>,
    keys: map<string, KeyRecord>, orders: seq<Order>, slots: seq<Slot>,
    payments: seq<PaymentRecord>, jobs: seq<Job>, cancels: seq<nat>, effects: seq<nat>)

  /** The session a service works through: it changes the tables in place. */
  class Session {
    var products: map<int, Product>
    var options: map<int, SpecOption>
    var coupons: map<int, Coupon>
    var keys: map<string, KeyRecord>
    var orders: seq<Order>
    var slots: seq<Slot>
    var payments: seq<PaymentRecord>
    var jobs: seq<Job>
    var cancels: seq<nat>
    var effects: seq<nat>

    constructor (s: Store)
      ensures View() == s
    {
      products, options, coupons, keys := s.products, s.options, s.coupons, s.keys;
      orders, slots, payments, jobs := s.orders, s.slots, s.payments, s.jobs;
      cancels, effects := s.cancels, s.effects;
    }

    function View(): Store
      reads this
    {
      Store(products, options, coupons, keys, orders, slots, payments, jobs, cancels, effects)
    }

    /** What leaving a transaction by an exception does: every table is as it was. */
    method Rollback(saved: Store)
      modifies this
      ensures View() == saved
    {
      products, options, coupons, keys := saved.products, saved.options, saved.coupons, saved.keys;
      orders, slots, payments, jobs := saved.orders, saved.slots, saved.payments, saved.jobs;
      cancels, effects := saved.cancels, saved.effects;
    }
  }
}
