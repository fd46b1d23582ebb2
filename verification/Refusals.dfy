/** Which problem each operation names, in terms of the request and the rows it finds. */
module Refusals {
  import opened Wrappers
  import opened Tables
  import opened Sorting
  import opened OpenHours
  import opened Reservations
  import opened Pricing
  import opened Orders
  import opened Deduction
  import opened Charges
  import opened Payments
  import opened PaymentMatch
  import opened Invariants
  import opened Lifecycle

  // ---------- lines ----------

  /** The first option that cannot be picked, and why. */
  ghost predicate OptionProblem(options: map<int, SpecOption>, allowed: set<int>, ids: seq<int>, e: OrderError) {
    exists j :: 0 <= j < |ids| && (forall i :: 0 <= i < j ==> Charges.Pickable(options, allowed, ids[i])) &&
      if ids[j] !in options then e == OptionNotFound(ids[j])
      else if allowed != {} && options[ids[j]].group !in allowed then e == OptionNotAllowed(ids[j])
      else options[ids[j]].inventory == SoldOut && e == OptionSoldOut(ids[j])
  }

  lemma {:induction false} PickRefuses(options: map<int, SpecOption>, allowed: set<int>, ids: seq<int>, total: int)
    requires PickOptions(options, allowed, ids, total).Err?
    ensures OptionProblem(options, allowed, ids, PickOptions(options, allowed, ids, total).error)
    decreases ids
  {
    var e := PickOptions(options, allowed, ids, total).error;
    if Charges.Pickable(options, allowed, ids[0]) {
      PickRefuses(options, allowed, ids[1..], total + options[ids[0]].modifier);
      var j :| 0 <= j < |ids[1..]| && (forall i :: 0 <= i < j ==> Charges.Pickable(options, allowed, ids[1..][i])) &&
        if ids[1..][j] !in options then e == OptionNotFound(ids[1..][j])
        else if allowed != {} && options[ids[1..][j]].group !in allowed then e == OptionNotAllowed(ids[1..][j])
        else options[ids[1..][j]].inventory == SoldOut && e == OptionSoldOut(ids[1..][j]);
      forall i | 0 <= i < j + 1
        ensures Charges.Pickable(options, allowed, ids[i])
      {
        assert i > 0 ==> ids[i] == ids[1..][i - 1];
      }
      assert ids[j + 1] == ids[1..][j];
    } else {
      assert ids[0] == ids[0];
    }
  }

  /** What is wrong with a line of whose product `wanted` units are wanted so far, this line included. */
  ghost predicate LineProblem(products: map<int, Product>, options: map<int, SpecOption>, line: Line, wanted: nat, e: OrderError) {
    if line.productId !in products then e == ProductNotFound(line.productId)
    else
      var p := products[line.productId];
      if !p.active then e == ProductInactive(line.productId)
      else if p.inventory == SoldOut || p.stock < wanted then e == ProductSoldOut(line.productId)
      else OptionProblem(options, p.groups, line.options, e)
  }

  lemma LineRefuses(products: map<int, Product>, options: map<int, SpecOption>, line: Line)
    requires QuoteLine(products, options, line).Err?
    ensures LineProblem(products, options, line, line.quantity, QuoteLine(products, options, line).error)
  {
    hide OptionProblem;
    if line.productId in products && PickOptions(options, products[line.productId].groups, line.options, 0).Err? {
      PickRefuses(options, products[line.productId].groups, line.options, 0);
    }
  }

  lemma {:induction false} FirstRefused(products: map<int, Product>, options: map<int, SpecOption>, done: seq<Item>, lines: seq<Line>)
    returns (i: nat)
    requires TakeLines(products, options, done, lines).Err?
    ensures i < |lines| && TakeLines(products, options, done, lines[..i]).Ok?
    ensures QuoteLine(TakeLines(products, options, done, lines[..i]).value.0, options, lines[i]) ==
            Err(TakeLines(products, options, done, lines).error)
    decreases lines
  {
    hide QuoteLine;
    match QuoteLine(products, options, lines[0])
    case Err(e) =>
      i := 0;
      assert lines[..0] == [];
    case Ok(item) =>
      QuotedInStock(products, options, lines[0]);
      var j := FirstRefused(products[lines[0].productId := Deduct(products[lines[0].productId], lines[0].quantity)], options,
                            done + [item], lines[1..]);
      i := j + 1;
      assert lines[..i][0] == lines[0] && lines[..i][1..] == lines[1..][..j];
  }

  lemma {:induction false} WantedNext(lines: seq<Line>, line: Line, id: int)
    ensures Wanted(lines + [line], id) == Wanted(lines, id) + if line.productId == id then line.quantity else 0
  {
    if lines == [] {
      assert [line][1..] == [] && [] + [line] == [line];
    } else {
      assert (lines + [line])[1..] == lines[1..] + [line];
      WantedNext(lines[1..], line, id);
    }
  }

  /**
   The lines before the refused one are sold, and the refused one is named for its
   own problem: a stock that does not cover it together with those is sold out.
   */
  lemma TakeRefuses(products: map<int, Product>, options: map<int, SpecOption>, lines: seq<Line>) returns (i: nat)
    requires TakeLines(products, options, [], lines).Err?
    ensures i < |lines| && Sufficient(products, options, lines[..i])
    ensures LineProblem(products, options, lines[i], Wanted(lines[..i + 1], lines[i].productId),
                        TakeLines(products, options, [], lines).error)
  {
    i := FirstRefused(products, options, [], lines);
    var left, items := TakeLines(products, options, [], lines[..i]).value.0, TakeLines(products, options, [], lines[..i]).value.1;
    var line := lines[i];
    TakesExactly(products, options, [], lines[..i]);
    TakesDemand(products, options, [], lines[..i], left, items, line.productId);
    LineRefuses(left, options, line);
    WantedNext(lines[..i], line, line.productId);
    assert lines[..i] + [line] == lines[..i + 1];
    hide TakeLines, QuoteLine, OptionProblem, Sufficient;
  }

  // ---------- previews ----------

  lemma {:induction false} QuoteRefuses(products: map<int, Product>, options: map<int, SpecOption>, done: seq<Item>, lines: seq<Line>)
    ensures match QuoteLines(products, options, done, lines)
            case Ok(items) =>
              forall i :: 0 <= i < |lines| ==>
                Sellable(products, options, lines[i]) && lines[i].quantity <= products[lines[i].productId].stock
            case Err(e) => exists i :: 0 <= i < |lines| && LineProblem(products, options, lines[i], lines[i].quantity, e)
    decreases lines
  {
    hide LineProblem;
    if lines != [] {
      match QuoteLine(products, options, lines[0])
      case Err(e) =>
        LineRefuses(products, options, lines[0]);
      case Ok(item) =>
        assert Sellable(products, options, lines[0]) && lines[0].quantity <= products[lines[0].productId].stock;
        hide QuoteLine, Sellable;
        QuoteRefuses(products, options, done + [item], lines[1..]);
        assert forall i :: 0 < i < |lines| ==> lines[i] == lines[1..][i - 1];
        assert forall i :: 0 <= i < |lines[1..]| ==> lines[1..][i] == lines[i + 1];
    }
  }

  lemma LineProblemIsOne(products: map<int, Product>, options: map<int, SpecOption>, line: Line, wanted: nat, e: OrderError)
    requires LineProblem(products, options, line, wanted, e)
    ensures !(Sellable(products, options, line) && wanted <= products[line.productId].stock)
  {
    if line.productId in products {
      PicksExactly(options, products[line.productId].groups, line.options, 0);
    }
  }

  /** What a preview asks before it looks at the lines. */
  predicate Presented(req: PreviewRequest, buyer: Option<Buyer>) {
    && req.lines != [] && (req.orderType == Delivery ==> req.address.Some?)
    && (req.pointsUse > 0 || (req.couponId.Some? && req.couponId.value != 0) ==> buyer.Some?)
  }

  /** A preview is given exactly for lines that can each be sold from stock, with a coupon, if any, that the customer can use. */
  lemma PreviewsExactly(s: Store, req: PreviewRequest, buyer: Option<Buyer>)
    ensures Preview(s, req, buyer).Ok? <==>
            && Presented(req, buyer)
            && (forall i :: 0 <= i < |req.lines| ==>
                 Sellable(s.products, s.options, req.lines[i]) && req.lines[i].quantity <= s.products[req.lines[i].productId].stock)
            && (req.couponId.Some? ==>
                 var c := req.couponId.value;
                 buyer.Some? && c in s.coupons && s.coupons[c].owner == buyer.value.id && s.coupons[c].status == Active)
  {
    QuoteRefuses(s.products, s.options, [], req.lines);
    var quoted := QuoteLines(s.products, s.options, [], req.lines);
    if quoted.Err? {
      var i :| 0 <= i < |req.lines| && LineProblem(s.products, s.options, req.lines[i], req.lines[i].quantity, quoted.error);
      LineProblemIsOne(s.products, s.options, req.lines[i], req.lines[i].quantity, quoted.error);
    }
    hide QuoteLines, LineProblem, Sellable, Discount, Subtotal;
  }

  /** The first thing missing is named: lines, then the address, then the login, then a line's problem, then the coupon. */
  lemma PreviewRefuses(s: Store, req: PreviewRequest, buyer: Option<Buyer>)
    requires Preview(s, req, buyer).Err?
    ensures var e := Preview(s, req, buyer).error;
            if req.lines == [] then e == NoItems
            else if req.orderType == Delivery && req.address.None? then e == AddressRequired
            else if !Presented(req, buyer) then e == LoginRequired
            else if QuoteLines(s.products, s.options, [], req.lines).Err? then
              exists i :: 0 <= i < |req.lines| && LineProblem(s.products, s.options, req.lines[i], req.lines[i].quantity, e)
            else e == if buyer.None? then LoginRequired else CouponUnusable
  {
    QuoteRefuses(s.products, s.options, [], req.lines);
    hide QuoteLines, LineProblem, Discount, Subtotal;
  }

  // ---------- times ----------

  /** The wanted time, or with opening hours the time it is aligned to. */
  ghost predicate IsTarget(shop: Shop, wanted: int, target: int) {
    if shop.openHours == [] then target == wanted else Align(ToLocal(shop, wanted), shop.openHours) == Some(ToLocal(shop, target))
  }

  /** Reservations off, no opening hours that parse, a time not in the future, beyond a day, or inside the lead time. */
  lemma PlanRefuses(shop: Shop, now: int, wanted: int)
    ensures PlanTime(shop, now, wanted) == Err(Disabled) <==> !shop.reservationEnabled
    ensures PlanTime(shop, now, wanted) == Err(OutsideOpenHours) <==>
            shop.reservationEnabled && shop.openHours != [] && Unconfigured(shop.openHours)
    ensures forall target :: shop.reservationEnabled && IsTarget(shop, wanted, target) ==>
              && (PlanTime(shop, now, wanted) == Err(NotInFuture) <==> target <= now)
              && (PlanTime(shop, now, wanted) == Err(BeyondOneDay) <==> target > now + DAY)
              && (PlanTime(shop, now, wanted) == Err(TooSoon) <==>
                   now < target <= now + DAY && target < now + MINUTE * (if shop.reminderMinutes >= 5 then shop.reminderMinutes else 5))
    ensures PlanTime(shop, now, wanted) != Err(SlotFull)
  {
    AlignNone(ToLocal(shop, wanted), shop.openHours);
    LocalRoundTrip(shop, wanted);
    forall target
      ensures ToUtc(shop, ToLocal(shop, target)) == target
    {
      LocalRoundTrip(shop, target);
    }
    hide Align, Unconfigured, FloorToSlot, ToUtc, ToLocal;
  }

  // ---------- creation ----------

  /** A refused creation under a new key names the first stage that fails. */
  lemma CreateRefuses(s: Store, shop: Shop, req: CreateRequest)
    requires Valid(s) && req.key !in s.keys && Create(s, shop, req).Err?
    ensures var e := Create(s, shop, req).error;
            if !Admitted(s.keys, req) then Precheck(s.keys, req) == Some(e)
            else if !HasRoom(s.slots, shop, req) then
              if req.payload.orderType != Pickup then e == OnlyPickupReserved
              else e == CannotReserve(match PlanTime(shop, req.now, req.payload.scheduledAt.value)
                                      case Err(why) => why
                                      case Ok(_) => SlotFull)
            else if !Sufficient(s.products, s.options, req.payload.lines) then
              exists i :: 0 <= i < |req.payload.lines| && Sufficient(s.products, s.options, req.payload.lines[..i]) &&
                LineProblem(s.products, s.options, req.payload.lines[i],
                            Wanted(req.payload.lines[..i + 1], req.payload.lines[i].productId), e)
            else e == if CouponOk(s.coupons, req) then RowRejected else CouponUnusable
  {
    PrecheckNames(s.keys, req);
    ValidSlots(s);
    PlansExactly(s.slots, shop, req);
    TakesExactly(s.products, s.options, [], req.payload.lines);
    if TakeLines(s.products, s.options, [], req.payload.lines).Err? {
      var i := TakeRefuses(s.products, s.options, req.payload.lines);
    } else {
      ChargesExactly(s.coupons, req, TakeLines(s.products, s.options, [], req.payload.lines).value.1);
    }
    if PlanSlot(s.slots, shop, req).Err? {
      RoomProblem(s.slots, shop, req);
    }
    hide Valid, PlanSlot, TakeLines, Precheck, Place, Sufficient, HasRoom, Admitted, CouponOk, LineProblem, Wanted, RowAccepted;
    hide PlanTime, Subtotal;
  }

  lemma RoomProblem(slots: seq<Slot>, shop: Shop, req: CreateRequest)
    requires PlanSlot(slots, shop, req).Err?
    ensures var e := PlanSlot(slots, shop, req).error;
            if req.payload.orderType != Pickup then e == OnlyPickupReserved
            else req.payload.scheduledAt.Some? &&
                 e == CannotReserve(match PlanTime(shop, req.now, req.payload.scheduledAt.value)
                                    case Err(why) => why
                                    case Ok(_) => SlotFull)
  {
    hide PlanTime;
  }

  /** A key of a guest session, or one that holds another payload, is refused for orders; no other recorded key is. */
  lemma KeyRefuses(keys: map<string, KeyRecord>, key: string, payload: Payload, now: int)
    ensures ClaimKey(keys, key, payload, now) == Err(KeyScopeMismatch) <==> key in keys && keys[key].scope != CreateScope
    ensures ClaimKey(keys, key, payload, now) == Err(KeyReused) <==>
            key in keys && keys[key].scope == CreateScope && keys[key].hash.Some? && keys[key].hash != Some(payload)
    ensures ClaimKey(keys, key, payload, now).Err? ==>
            ClaimKey(keys, key, payload, now).error == KeyScopeMismatch || ClaimKey(keys, key, payload, now).error == KeyReused
  {
  }

  // ---------- payment ----------

  /** A callback is refused for its signature, then its order, its currency, its amount. */
  lemma CallbackProblem(s: Store, n: Notification, now: int)
    requires Valid(s) && Notify(s, n, now).Err?
    ensures var e := Notify(s, n, now).error;
            if !n.signatureOk then e == BadSignature
            else if forall k :: 0 <= k < |s.orders| ==> s.orders[k].number != n.number then e == OrderNotFound
            else if n.currency != "CNY" then e == UnsupportedCurrency
            else e == AmountMismatch && forall k :: 0 <= k < |s.orders| && s.orders[k].number == n.number ==> s.orders[k].total != n.amount
  {
    ValidNumbers(s);
    hide Valid, WakeJob, Recorded, MarkPaid;
  }

  /**
   A match is refused for its record, then for the number of candidates, listed if
   there are several, or for the order named: unknown, of another total, or settled.
   */
  lemma MatchProblem(s: Store, m: MatchRequest, now: int)
    ensures Match(s, m, now).Err? && Acquire(s.payments, m).Ok? ==>
            match Match(s, m, now).error
            case NoCandidate => m.force.None? && forall k :: 0 <= k < |s.orders| ==> !IsCandidate(s.orders[k], m)
            case Ambiguous(ids) =>
              && m.force.None? && |ids| > 1 && NoDups(ids)
              && forall k: nat :: k in ids <==> k < |s.orders| && IsCandidate(s.orders[k], m)
            case NoSuchOrder => m.force.Some? && m.force.value >= |s.orders|
            case TotalMismatch => m.force.Some? && m.force.value < |s.orders| && s.orders[m.force.value].total != m.amount
            case AlreadyPaid =>
              && m.force.Some? && m.force.value < |s.orders| && s.orders[m.force.value].total == m.amount
              && s.orders[m.force.value].payment == Settled
            case RecordAlreadyMatched => false
    ensures Acquire(s.payments, m).Err? ==> Match(s, m, now) == Err(RecordAlreadyMatched)
  {
    CandidatesFacts(s.orders, m);
    var ids := Candidates(s.orders, m);
    if ids != [] {
      assert ids[0] in ids;
    }
    hide Candidates, Acquire, WakeJob;
    if Acquire(s.payments, m).Err? {
      AcquireProblem(s.payments, m);
    }
  }

  lemma AcquireProblem(payments: seq<PaymentRecord>, m: MatchRequest)
    requires Acquire(payments, m).Err?
    ensures Acquire(payments, m).error == RecordAlreadyMatched
  {
  }
}
