/** Price calculation of app/services/orders.py, in cents. */
module Pricing {
  import opened Wrappers
  import opened Tables
  import opened Reservations

  /** Every way in which order creation or the price preview refuses a request. */
  datatype OrderError =
    | NoItems | BlankKey | GuestRequired | AddressRequired | LoginRequired
    | GuestInvalid | GuestExpired | KeyScopeMismatch | KeyReused
    | OnlyPickupReserved | CannotReserve(why: PlanError)
    | ProductNotFound(id: int) | ProductInactive(id: int) | ProductSoldOut(id: int)
    | OptionNotFound(id: int) | OptionNotAllowed(id: int) | OptionSoldOut(id: int)
    | CouponUnusable | RowRejected

  // ---------- lines ----------

  /** Sum of the modifiers of the picked options, added to `total`. */
  function PickOptions(options: map<int, SpecOption>, allowed: set<int>, ids: seq<int>, total: int): Result<int, OrderError> {
    if ids == [] then Ok(total)
    else if ids[0] !in options then Err(OptionNotFound(ids[0]))
    else if allowed != {} && options[ids[0]].group !in allowed then Err(OptionNotAllowed(ids[0]))
    else if options[ids[0]].inventory != InStock then Err(OptionSoldOut(ids[0]))
    else PickOptions(options, allowed, ids[1..], total + options[ids[0]].modifier)
  }

  method PickSpecOptions(options: map<int, SpecOption>, allowed: set<int>, ids: seq<int>)
    returns (r: Result<int, OrderError>)
    ensures r == PickOptions(options, allowed, ids, 0)
  {
    var total := 0;
    for i := 0 to |ids|
      invariant PickOptions(options, allowed, ids, 0) == PickOptions(options, allowed, ids[i..], total)
    {
      assert ids[i..][1..] == ids[i + 1..];
      if ids[i] !in options {
        return Err(OptionNotFound(ids[i]));
      }
      if allowed != {} && options[ids[i]].group !in allowed {
        return Err(OptionNotAllowed(ids[i]));
      }
      if options[ids[i]].inventory != InStock {
        return Err(OptionSoldOut(ids[i]));
      }
      total := total + options[ids[i]].modifier;
    }
    return Ok(total);
  }

  /** The checks and the price of one line, read from the rows as they are. */
  function QuoteLine(products: map<int, Product>, options: map<int, SpecOption>, line: Line): Result<Item, OrderError> {
    if line.productId !in products then Err(ProductNotFound(line.productId))
    else
      var p := products[line.productId];
      if !p.active then Err(ProductInactive(line.productId))
      else if p.inventory != InStock then Err(ProductSoldOut(line.productId))
      else if p.stock < line.quantity then Err(ProductSoldOut(line.productId))
      else
        match PickOptions(options, p.groups, line.options, 0)
        case Err(e) => Err(e)
        case Ok(modifiers) => Ok(Item(line.productId, line.quantity, p.basePrice + modifiers))
  }

  function QuoteLines(products: map<int, Product>, options: map<int, SpecOption>, done: seq<Item>, lines: seq<Line>)
    : Result<seq<Item>, OrderError>
    decreases lines
  {
    if lines == [] then Ok(done)
    else
      match QuoteLine(products, options, lines[0])
      case Err(e) => Err(e)
      case Ok(item) => QuoteLines(products, options, done + [item], lines[1..])
  }

  function Subtotal(items: seq<Item>): int {
    if items == [] then 0
    else Subtotal(items[..|items| - 1]) + items[|items| - 1].unitPrice * items[|items| - 1].quantity
  }

  function Cheapest(items: seq<Item>): (price: int)
    requires items != []
    ensures exists i :: 0 <= i < |items| && items[i].unitPrice == price
    ensures forall i :: 0 <= i < |items| ==> price <= items[i].unitPrice
  {
    if |items| == 1 then items[0].unitPrice
    else
      var rest := Cheapest(items[1..]);
      assert forall i :: 0 < i < |items| ==> items[i] == items[1..][i - 1];
      if items[0].unitPrice < rest then items[0].unitPrice else rest
  }

  // ---------- coupons, points, delivery ----------

  /** Rounding to whole cents with ROUND_HALF_UP: halves go away from zero. */
  function HalfUp(x: real): int {
    if x >= 0.0 then (x + 0.5).Floor else -((0.5 - x).Floor)
  }

  function MinReal(a: real, b: real): real { if a < b then a else b }

  /** The coupon row a signed-in customer can still use. */
  function UsableCoupon(coupons: map<int, Coupon>, id: int, user: int): Option<Coupon> {
    if id in coupons && coupons[id].owner == user && coupons[id].status == Active then Some(coupons[id]) else None
  }

  function Share(subtotal: int, percentage: real): real { subtotal as real * (percentage / 100.0) }

  function Discount(kind: CouponKind, subtotal: int, items: seq<Item>): int {
    match kind
    case AmountOff(amount, minimum) =>
      if minimum.Some? && subtotal < HalfUp(minimum.value) then 0 else Min(HalfUp(amount), subtotal)
    case PercentageOff(percentage, cap) =>
      var limit := if cap.Some? then HalfUp(cap.value) else subtotal;
      HalfUp(MinReal(MinReal(Share(subtotal, percentage), limit as real), subtotal as real))
    case FreeAnyDrink => if items == [] then 0 else Cheapest(items)
    case UnsupportedKind => 0
  }

  function CouponDiscount(coupons: map<int, Coupon>, couponId: Option<int>, user: Option<int>, subtotal: int, items: seq<Item>)
    : Result<int, OrderError>
  {
    if couponId.None? then Ok(0)
    else if user.None? then Err(LoginRequired)
    else
      match UsableCoupon(coupons, couponId.value, user.value)
      case None => Err(CouponUnusable)
      case Some(coupon) => Ok(Discount(coupon.kind, subtotal, items))
  }

  /** One point is worth a cent; at most 30% of the payable amount, rounded down. */
  function PointsDiscount(requested: int, balance: int, payable: int): int {
    if requested <= 0 || balance <= 0 then 0
    else Min(Min(requested, balance), Max(payable, 0) * 3 / 10)
  }

  function DeliveryFee(orderType: OrderType, subtotal: int): int {
    if orderType != Delivery || subtotal >= 3000 then 0 else 600
  }

  // ---------- the preview ----------

  datatype Buyer = Buyer(id: int, points: int)

  datatype PreviewRequest = PreviewRequest(
    lines: seq<Line>, couponId: Option<int>, pointsUse: nat, orderType: OrderType, address: Option<string>)

  datatype Quote = Quote(items: seq<Item>, subtotal: int, coupon: int, points: int, fee: int, final: int)

  function IdOf(buyer: Option<Buyer>): Option<int> {
    if buyer.Some? then Some(buyer.value.id) else None
  }

  /** A coupon id is taken as given when it is neither absent nor zero. */
  predicate Names(couponId: Option<int>) {
    couponId.Some? && couponId.value != 0
  }

  function Preview(s: Store, req: PreviewRequest, buyer: Option<Buyer>): Result<Quote, OrderError> {
    if req.lines == [] then Err(NoItems)
    else if req.orderType == Delivery && req.address.None? then Err(AddressRequired)
    else if Names(req.couponId) && buyer.None? then Err(LoginRequired)
    else if req.pointsUse > 0 && buyer.None? then Err(LoginRequired)
    else
      match QuoteLines(s.products, s.options, [], req.lines)
      case Err(e) => Err(e)
      case Ok(items) =>
        var subtotal := Subtotal(items);
        match CouponDiscount(s.coupons, req.couponId, IdOf(buyer), subtotal, items)
        case Err(e) => Err(e)
        case Ok(coupon) =>
          var points := if buyer.None? then 0
                        else PointsDiscount(req.pointsUse, buyer.value.points, Max(0, subtotal - coupon));
          var fee := DeliveryFee(req.orderType, subtotal);
          Ok(Quote(items, subtotal, coupon, points, fee, Max(0, subtotal - coupon - points + fee)))
  }

  method CalculatePriceOnly(db: Session, req: PreviewRequest, buyer: Option<Buyer>) returns (r: Result<Quote, OrderError>)
    ensures r == Preview(db.View(), req, buyer)
  {
    hide CouponDiscount, PointsDiscount, DeliveryFee, PickOptions;
    if req.lines == [] {
      return Err(NoItems);
    }
    if req.orderType == Delivery && req.address.None? {
      return Err(AddressRequired);
    }
    if (Names(req.couponId) || req.pointsUse > 0) && buyer.None? {
      return Err(LoginRequired);
    }
    var items, subtotal := [], 0;
    for i := 0 to |req.lines|
      invariant QuoteLines(db.products, db.options, [], req.lines) ==
                QuoteLines(db.products, db.options, items, req.lines[i..])
      invariant subtotal == Subtotal(items)
    {
      assert req.lines[i..][1..] == req.lines[i + 1..];
      var line := req.lines[i];
      if line.productId !in db.products {
        return Err(ProductNotFound(line.productId));
      }
      var p := db.products[line.productId];
      if !p.active {
        return Err(ProductInactive(line.productId));
      }
      if p.inventory != InStock || p.stock < line.quantity {
        return Err(ProductSoldOut(line.productId));
      }
      var modifiers := PickSpecOptions(db.options, p.groups, line.options);
      if modifiers.Err? {
        return Err(modifiers.error);
      }
      var item := Item(line.productId, line.quantity, p.basePrice + modifiers.value);
      assert (items + [item])[..|items|] == items;
      items, subtotal := items + [item], subtotal + item.unitPrice * item.quantity;
    }
    var discount := CouponDiscount(db.coupons, req.couponId, IdOf(buyer), subtotal, items);
    if discount.Err? {
      return Err(discount.error);
    }
    var points := if buyer.None? then 0
                  else PointsDiscount(req.pointsUse, buyer.value.points, Max(0, subtotal - discount.value));
    var fee := DeliveryFee(req.orderType, subtotal);
    return Ok(Quote(items, subtotal, discount.value, points, fee,
                    Max(0, subtotal - discount.value - points + fee)));
  }

  // ---------- what the preview promises ----------

  /** No row or combination of picked options makes a unit price negative. */
  predicate FairPrices(items: seq<Item>) {
    forall i :: 0 <= i < |items| ==> items[i].unitPrice >= 0
  }

  lemma {:induction false} SubtotalCovers(items: seq<Item>)
    requires FairPrices(items)
    ensures Subtotal(items) >= 0
    ensures forall i :: 0 <= i < |items| ==> items[i].unitPrice <= Subtotal(items)
  {
    if items != [] {
      var last := items[|items| - 1];
      SubtotalCovers(items[..|items| - 1]);
      assert last.unitPrice * last.quantity >= last.unitPrice by {
        assert last.unitPrice * (last.quantity - 1) >= 0;
      }
    }
  }

  lemma HalfUpBelow(x: real, n: int)
    requires x <= n as real && 0 <= n
    ensures HalfUp(x) <= n
  {
  }

  /** Rounding goes to a nearest whole cent, and from a half away from zero. */
  lemma HalfUpNearest(x: real)
    ensures var n := HalfUp(x) as real;
            && -0.5 <= n - x <= 0.5
            && (n - x == 0.5 ==> x > 0.0) && (n - x == -0.5 ==> x < 0.0)
  {
  }

  /** The points discount is the most that request, balance and the 30% cap all allow. */
  lemma PointsAreMost(requested: nat, balance: int, payable: int, p: nat)
    requires payable >= 0
    ensures p <= PointsDiscount(requested, balance, payable) <==>
            p == 0 || (p <= requested && p <= balance && 10 * p <= 3 * payable)
  {
  }

  lemma CappedBelow(x: real, limit: real, n: nat)
    ensures HalfUp(MinReal(MinReal(x, limit), n as real)) <= n
  {
    HalfUpBelow(MinReal(MinReal(x, limit), n as real), n);
  }

  lemma DiscountBelowSubtotal(kind: CouponKind, items: seq<Item>)
    requires FairPrices(items)
    ensures Discount(kind, Subtotal(items), items) <= Subtotal(items)
  {
    SubtotalCovers(items);
    hide HalfUp, Subtotal, FairPrices;
    var subtotal := Subtotal(items);
    if kind.PercentageOff? {
      var limit := if kind.cap.Some? then HalfUp(kind.cap.value) else subtotal;
      CappedBelow(Share(subtotal, kind.percentage), limit as real, subtotal);
    }
  }

  /**
   With no negative unit price: the coupon never exceeds the subtotal after
   rounding, points never exceed 30% of what is left, and the quoted amount is the
   plain sum, so neither clamp at zero is ever active.
   */
  lemma PreviewAddsUp(s: Store, req: PreviewRequest, buyer: Option<Buyer>, q: Quote)
    requires Preview(s, req, buyer) == Ok(q) && FairPrices(q.items)
    ensures q.subtotal == Subtotal(q.items) >= 0
    ensures q.coupon <= q.subtotal
    ensures 0 <= q.points && 10 * q.points <= 3 * (q.subtotal - q.coupon)
    ensures q.final == q.subtotal - q.coupon - q.points + q.fee >= 0
  {
    SubtotalCovers(q.items);
    if req.couponId.Some? {
      DiscountBelowSubtotal(s.coupons[req.couponId.value].kind, q.items);
    }
  }

  // ---------- the charge at creation ----------

  /** `if payload.coupon_id and user`: only then does creation look at the coupon. */
  predicate Redeems(couponId: Option<int>, user: Option<int>) {
    Names(couponId) && user.Some?
  }

  /** The amount creation charges: only a free-drink coupon lowers it, and delivery costs nothing. */
  function Charge(coupons: map<int, Coupon>, couponId: Option<int>, user: Option<int>, items: seq<Item>)
    : Result<int, OrderError>
  {
    if !Redeems(couponId, user) then Ok(Subtotal(items))
    else
      match UsableCoupon(coupons, couponId.value, user.value)
      case None => Err(CouponUnusable)
      case Some(coupon) =>
        if coupon.kind == FreeAnyDrink && items != [] then Ok(Max(0, Subtotal(items) - Cheapest(items)))
        else Ok(Subtotal(items))
  }

  predicate Credited(coupons: map<int, Coupon>, couponId: Option<int>, user: Option<int>) {
    && couponId.Some? && couponId.value != 0 && user.Some?
    && couponId.value in coupons && coupons[couponId.value].kind == FreeAnyDrink
  }

  /** By how much a preview differs from the charge for the same rows, for every kind of request. */
  lemma PreviewGap(s: Store, req: PreviewRequest, buyer: Option<Buyer>, q: Quote, charged: int)
    requires Preview(s, req, buyer) == Ok(q) && FairPrices(q.items)
    requires Charge(s.coupons, req.couponId, IdOf(buyer), q.items) == Ok(charged)
    ensures q.final - charged ==
            q.fee - q.points - (if Credited(s.coupons, req.couponId, IdOf(buyer)) then 0 else q.coupon)
  {
    PreviewAddsUp(s, req, buyer, q);
    SubtotalCovers(q.items);
  }

  /**
   A pick-up order without points is charged what the preview said exactly when its
   coupon, if any, is a free drink or discounts nothing.
   */
  lemma PreviewIsCharged(s: Store, req: PreviewRequest, buyer: Option<Buyer>, q: Quote, charged: int)
    requires Preview(s, req, buyer) == Ok(q) && FairPrices(q.items)
    requires Charge(s.coupons, req.couponId, IdOf(buyer), q.items) == Ok(charged)
    requires req.orderType == Pickup && req.pointsUse == 0
    ensures q.final == charged <==> Credited(s.coupons, req.couponId, IdOf(buyer)) || q.coupon == 0
  {
    PreviewGap(s, req, buyer, q, charged);
  }

  /** The only kind the coupon table's check admits. */
  predicate TableKinds(coupons: map<int, Coupon>) {
    forall c :: c in coupons ==> coupons[c].kind == FreeAnyDrink
  }

  /** The points the preview deducts: the least of those asked, those owned, and 30% of the payable in cents. */
  lemma PointsDeducted(requested: nat, balance: int, payable: nat)
    ensures var points := PointsDiscount(requested, balance, payable);
            && (points == 0 <==> requested == 0 || balance <= 0 || 3 * payable < 10)
            && (points == 600 <==>
                 && requested >= 600 && balance >= 600 && payable >= 2000
                 && (requested == 600 || balance == 600 || 3 * payable < 6010))
  {
  }

  /** A delivery below thirty yuan. */
  predicate PaysFee(req: PreviewRequest, subtotal: int) {
    req.orderType == Delivery && subtotal < 3000
  }

  /**
   With the coupons the table admits, what remains between preview and charge is the
   delivery fee less the points: they agree exactly when there is no fee and no point
   can be used, or when the points used are worth the six yuan of the fee.
   */
  lemma TableGap(s: Store, req: PreviewRequest, buyer: Option<Buyer>, q: Quote, charged: int)
    requires Preview(s, req, buyer) == Ok(q) && FairPrices(q.items)
    requires Charge(s.coupons, req.couponId, IdOf(buyer), q.items) == Ok(charged)
    requires TableKinds(s.coupons) && req.couponId != Some(0)
    ensures q.final - charged == q.fee - q.points
    ensures var balance := if buyer.Some? then buyer.value.points else 0;
            var payable := q.subtotal - q.coupon;
            q.final == charged <==>
            if PaysFee(req, q.subtotal) then
              && req.pointsUse >= 600 && balance >= 600 && payable >= 2000
              && (req.pointsUse == 600 || balance == 600 || 3 * payable < 6010)
            else req.pointsUse == 0 || balance <= 0 || 3 * payable < 10
  {
    PreviewGap(s, req, buyer, q, charged);
    PreviewAddsUp(s, req, buyer, q);
    PointsDeducted(req.pointsUse, if buyer.Some? then buyer.value.points else 0, q.subtotal - q.coupon);
    hide QuoteLines, Subtotal, FairPrices;
  }

  const TWO_DRINKS: Store :=
    Store(map[1 := Product(true, InStock, 2, 1200, {})], map[], map[], map[], [], [], [], [], [], [])

  lemma TwoDrinksQuoted()
    ensures QuoteLines(TWO_DRINKS.products, map[], [], [Line(1, 2, [])]) == Ok([Item(1, 2, 1200)])
    ensures Subtotal([Item(1, 2, 1200)]) == 2400
  {
    var item, line := Item(1, 2, 1200), Line(1, 2, []);
    assert [item][..0] == [] && [line][1..] == [] && [] + [item] == [item];
    assert Subtotal([item]) == Subtotal([]) + 2400;
    assert QuoteLine(TWO_DRINKS.products, map[], line) == Ok(item);
  }

  /** Two drinks of twelve yuan delivered: thirty quoted with the fee, twenty-four charged. */
  lemma DeliveryNotCharged()
    ensures var req := PreviewRequest([Line(1, 2, [])], None, 0, Delivery, Some("street"));
            && Preview(TWO_DRINKS, req, None) == Ok(Quote([Item(1, 2, 1200)], 2400, 0, 0, 600, 3000))
            && Charge(TWO_DRINKS.coupons, None, None, [Item(1, 2, 1200)]) == Ok(2400)
  {
    TwoDrinksQuoted();
    hide QuoteLines, Subtotal;
  }

  /** Nine points on the two drinks: nine cents less quoted, the whole charged. */
  lemma PointsNotCharged()
    ensures var req := PreviewRequest([Line(1, 2, [])], None, 9, Pickup, None);
            && Preview(TWO_DRINKS, req, Some(Buyer(3, 9))) == Ok(Quote([Item(1, 2, 1200)], 2400, 0, 9, 0, 2391))
            && Charge(TWO_DRINKS.coupons, None, Some(3), [Item(1, 2, 1200)]) == Ok(2400)
  {
    TwoDrinksQuoted();
    hide QuoteLines, Subtotal;
  }
}
