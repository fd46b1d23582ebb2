/** What an order costs, in terms of the request and the rows alone. */
module Charges {
  import opened Wrappers
  import opened Tables
  import opened Reservations
  import opened Pricing
  import opened Orders
  import opened Deduction
  import opened Steps
  import opened Engine
  import opened Outcomes

  // ---------- options ----------

  /** Sum of the modifiers of options that exist. */
  function Modifiers(options: map<int, SpecOption>, ids: seq<int>): int {
    if ids == [] then 0
    else
      var last := ids[|ids| - 1];
      Modifiers(options, ids[..|ids| - 1]) + if last in options then options[last].modifier else 0
  }

  predicate Pickable(options: map<int, SpecOption>, allowed: set<int>, id: int) {
    && id in options && (allowed == {} || options[id].group in allowed) && options[id].inventory == InStock
  }

  lemma {:induction false} ModifiersFront(options: map<int, SpecOption>, ids: seq<int>)
    requires ids != []
    ensures Modifiers(options, ids) ==
            (if ids[0] in options then options[ids[0]].modifier else 0) + Modifiers(options, ids[1..])
  {
    if |ids| > 1 {
      ModifiersFront(options, ids[..|ids| - 1]);
      assert ids[..|ids| - 1][1..] == ids[1..][..|ids| - 2];
    }
  }

  /** Options are picked exactly if each is known, allowed and in stock, and cost the sum of their modifiers. */
  lemma {:induction false} PicksExactly(options: map<int, SpecOption>, allowed: set<int>, ids: seq<int>, total: int)
    ensures PickOptions(options, allowed, ids, total).Ok? <==>
            forall i :: 0 <= i < |ids| ==> Pickable(options, allowed, ids[i])
    ensures PickOptions(options, allowed, ids, total).Ok? ==>
            PickOptions(options, allowed, ids, total).value == total + Modifiers(options, ids)
    decreases ids
  {
    if ids != [] {
      ModifiersFront(options, ids);
      assert forall i :: 0 < i < |ids| ==> ids[i] == ids[1..][i - 1];
      if Pickable(options, allowed, ids[0]) {
        PicksExactly(options, allowed, ids[1..], total + options[ids[0]].modifier);
        assert Pickable(options, allowed, ids[0]) && forall i :: 0 <= i < |ids[1..]| ==> ids[1..][i] == ids[i + 1];
      }
    }
  }

  // ---------- lines ----------

  /** Price of one unit of what the line asks for. */
  function UnitPrice(products: map<int, Product>, options: map<int, SpecOption>, line: Line): int {
    (if line.productId in products then products[line.productId].basePrice else 0) + Modifiers(options, line.options)
  }

  /** Price of all the lines together: each unit price as often as it is wanted. */
  function Owed(products: map<int, Product>, options: map<int, SpecOption>, lines: seq<Line>): int {
    if lines == [] then 0
    else
      var last := lines[|lines| - 1];
      Owed(products, options, lines[..|lines| - 1]) + last.quantity * UnitPrice(products, options, last)
  }

  lemma {:induction false} OwedConcat(products: map<int, Product>, options: map<int, SpecOption>, a: seq<Line>, b: seq<Line>)
    ensures Owed(products, options, a + b) == Owed(products, options, a) + Owed(products, options, b)
    decreases b
  {
    if b == [] {
      assert a + b == a;
    } else {
      OwedConcat(products, options, a, b[..|b| - 1]);
      assert (a + b)[..|a| + |b| - 1] == a + b[..|b| - 1];
    }
  }

  lemma OwedOne(products: map<int, Product>, options: map<int, SpecOption>, line: Line)
    ensures Owed(products, options, [line]) == line.quantity * UnitPrice(products, options, line)
  {
    assert [line][..0] == [];
    assert Owed(products, options, []) == 0;
  }

  lemma TwoLinesOwe(products: map<int, Product>, options: map<int, SpecOption>, id: int, picked: seq<int>, q: Quantity, q': Quantity)
    ensures Owed(products, options, [Line(id, q, picked), Line(id, q', picked)]) ==
            Owed(products, options, [Line(id, q + q', picked)])
  {
    var one, two, both := Line(id, q, picked), Line(id, q', picked), Line(id, q + q', picked);
    assert [one, two] == [one] + [two];
    OwedConcat(products, options, [one], [two]);
    OwedOne(products, options, one);
    OwedOne(products, options, two);
    OwedOne(products, options, both);
    var price := UnitPrice(products, options, both);
    assert UnitPrice(products, options, one) == UnitPrice(products, options, two) == price;
    assert (q + q') * price == q * price + q' * price;
    hide Owed, UnitPrice;
  }

  lemma OwedBetween(products: map<int, Product>, options: map<int, SpecOption>, before: seq<Line>, lines: seq<Line>, after: seq<Line>)
    ensures Owed(products, options, before + lines + after) ==
            Owed(products, options, before) + Owed(products, options, lines) + Owed(products, options, after)
  {
    OwedConcat(products, options, before + lines, after);
    OwedConcat(products, options, before, lines);
    hide Owed;
  }

  /** A quantity split over two lines costs what it costs on one. */
  lemma SplitLineCosts(products: map<int, Product>, options: map<int, SpecOption>, before: seq<Line>, after: seq<Line>,
                       id: int, picked: seq<int>, q: Quantity, q': Quantity)
    ensures Owed(products, options, before + [Line(id, q, picked), Line(id, q', picked)] + after) ==
            Owed(products, options, before + [Line(id, q + q', picked)] + after)
  {
    hide Owed;
    OwedBetween(products, options, before, [Line(id, q, picked), Line(id, q', picked)], after);
    OwedBetween(products, options, before, [Line(id, q + q', picked)], after);
    TwoLinesOwe(products, options, id, picked, q, q');
  }

  lemma SubtotalAppend(items: seq<Item>, x: Item)
    ensures Subtotal(items + [x]) == Subtotal(items) + x.unitPrice * x.quantity
  {
    assert (items + [x])[..|items|] == items;
  }

  lemma {:induction false} OwedFront(products: map<int, Product>, options: map<int, SpecOption>, lines: seq<Line>)
    requires lines != []
    ensures Owed(products, options, lines) ==
            lines[0].quantity * UnitPrice(products, options, lines[0]) + Owed(products, options, lines[1..])
  {
    assert lines == [lines[0]] + lines[1..];
    OwedConcat(products, options, [lines[0]], lines[1..]);
    OwedOne(products, options, lines[0]);
  }

  /** One item for each line, in order, at the line's unit price. */
  predicate ItemsOf(products: map<int, Product>, options: map<int, SpecOption>, lines: seq<Line>, items: seq<Item>) {
    && |items| == |lines|
    && forall i :: 0 <= i < |lines| ==>
         items[i] == Item(lines[i].productId, lines[i].quantity, UnitPrice(products, options, lines[i]))
  }

  /** The price of some unit that no other undercuts. */
  ghost predicate IsLeast(items: seq<Item>, price: int) {
    && (exists i :: 0 <= i < |items| && items[i].unitPrice == price)
    && forall i :: 0 <= i < |items| ==> price <= items[i].unitPrice
  }

  lemma QuotedItem(products: map<int, Product>, options: map<int, SpecOption>, line: Line, item: Item)
    requires QuoteLine(products, options, line) == Ok(item)
    ensures item == Item(line.productId, line.quantity, UnitPrice(products, options, line))
  {
    PicksExactly(options, products[line.productId].groups, line.options, 0);
  }

  /** Quoted lines become one item each, in order, at their unit price, and their subtotal is what is owed. */
  lemma {:induction false} QuotedOwed(products: map<int, Product>, options: map<int, SpecOption>,
                                      done: seq<Item>, lines: seq<Line>, items: seq<Item>)
    requires QuoteLines(products, options, done, lines) == Ok(items)
    ensures Subtotal(items) == Subtotal(done) + Owed(products, options, lines)
    ensures |items| == |done| + |lines| && items[..|done|] == done && ItemsOf(products, options, lines, items[|done|..])
    decreases lines
  {
    hide QuoteLine, UnitPrice, Subtotal;
    if lines != [] {
      var item := QuoteLine(products, options, lines[0]).value;
      QuotedItem(products, options, lines[0], item);
      OwedFront(products, options, lines);
      SubtotalAppend(done, item);
      hide Owed;
      QuotedOwed(products, options, done + [item], lines[1..], items);
      assert items[|done|] == (done + [item])[|done|] && items[..|done|] == (done + [item])[..|done|];
      assert forall i :: 0 < i < |lines| ==> lines[i] == lines[1..][i - 1] && items[|done|..][i] == items[|done| + 1..][i - 1];
    }
  }

  // ---------- what is charged and quoted ----------

  /** The charge for the items: what is owed, less the cheapest unit for a free-drink coupon of the customer. */
  lemma ChargedOwed(coupons: map<int, Coupon>, couponId: Option<int>, user: Option<int>, items: seq<Item>, total: int)
    requires Charge(coupons, couponId, user, items) == Ok(total)
    ensures if Credited(coupons, couponId, user) && items != [] then
              exists least :: IsLeast(items, least) && total == Max(0, Subtotal(items) - least)
            else total == Subtotal(items)
  {
    hide Subtotal;
    if Credited(coupons, couponId, user) && items != [] {
      assert IsLeast(items, Cheapest(items));
    }
  }

  /**
   A committed creation charges what its lines owe, each unit as often as wanted, by
   the rows before it; a redeemed free-drink coupon takes off one cheapest unit.
   */
  lemma CreationCharges(s: Store, shop: Shop, req: CreateRequest)
    requires Inserts(s, Creating(shop, req), req.key)
    ensures var receipt, lines := Create(s, shop, req).value.1, req.payload.lines;
            && ItemsOf(s.products, s.options, lines, receipt.items)
            && if Credited(s.coupons, req.payload.couponId, req.user) && lines != [] then
                 exists least :: IsLeast(receipt.items, least) &&
                                 receipt.total == Max(0, Owed(s.products, s.options, lines) - least)
               else receipt.total == Owed(s.products, s.options, lines)
  {
    hide Create, ClaimKey, PlanSlot, TakeLines, QuoteLines, SpendCoupon, Subtotal, Owed, UnitPrice, Charge, Credited;
    hide IsLeast, RowAccepted, Keeps;
    var replay, keys, slots, plan, products, items, total := CreateStages(s, shop, req);
    TakenIsQuoted(s.products, s.products, s.options, [], req.payload.lines);
    QuotedOwed(s.products, s.options, [], req.payload.lines, items);
    EmptySubtotal();
    assert items[0..] == items;
    ChargedOwed(s.coupons, req.payload.couponId, req.user, items, total);
  }

  lemma EmptySubtotal()
    ensures Subtotal([]) == 0
  {
  }

  /** A preview quotes the same lines at the same prices. */
  lemma PreviewQuotesOwed(s: Store, req: PreviewRequest, buyer: Option<Buyer>, q: Quote)
    requires Preview(s, req, buyer) == Ok(q)
    ensures q.subtotal == Owed(s.products, s.options, req.lines) && ItemsOf(s.products, s.options, req.lines, q.items)
  {
    hide QuoteLines, Subtotal, Owed, UnitPrice, PointsDiscount, CouponDiscount;
    QuotedOwed(s.products, s.options, [], req.lines, q.items);
    assert q.items[0..] == q.items;
    EmptySubtotal();
  }

  /** One line of q units without options or coupon: q times the base price. */
  lemma SingleLineCharged(s: Store, shop: Shop, req: CreateRequest, id: int, q: Quantity)
    requires Inserts(s, Creating(shop, req), req.key) && req.payload.lines == [Line(id, q, [])]
    requires req.payload.couponId.None?
    ensures id in s.products && Create(s, shop, req).value.1.total == q * s.products[id].basePrice
  {
    CreationCharges(s, shop, req);
    OwedOne(s.products, s.options, Line(id, q, []));
    assert !Credited(s.coupons, req.payload.couponId, req.user);
    LineKnown(s, shop, req);
    hide Create;
  }

  lemma LineKnown(s: Store, shop: Shop, req: CreateRequest)
    requires Inserts(s, Creating(shop, req), req.key) && req.payload.lines != []
    ensures req.payload.lines[0].productId in s.products
  {
    hide Create, ClaimKey, PlanSlot, Charge, SpendCoupon;
    var replay, keys, slots, plan, products, items, total := CreateStages(s, shop, req);
  }

  /** Two creations that only differ in how a quantity is split over lines charge the same, no coupon being redeemed. */
  lemma SplitLinesCharged(s: Store, shop: Shop, one: CreateRequest, two: CreateRequest, before: seq<Line>, after: seq<Line>,
                          id: int, picked: seq<int>, q: Quantity, q': Quantity)
    requires Inserts(s, Creating(shop, one), one.key) && Inserts(s, Creating(shop, two), two.key)
    requires one.payload.lines == before + [Line(id, q + q', picked)] + after
    requires two.payload.lines == before + [Line(id, q, picked), Line(id, q', picked)] + after
    requires !Redeems(one.payload.couponId, one.user) && !Redeems(two.payload.couponId, two.user)
    ensures Create(s, shop, one).value.1.total == Create(s, shop, two).value.1.total
  {
    CreationCharges(s, shop, one);
    CreationCharges(s, shop, two);
    SplitLineCosts(s.products, s.options, before, after, id, picked, q, q');
    hide Create, Owed, UnitPrice;
  }

  // ---------- coupons ----------

  /** A creation that redeems a coupon found it among the customer's own, and active; otherwise it is refused. */
  lemma RedeemsOwn(s: Store, shop: Shop, req: CreateRequest)
    requires Inserts(s, Creating(shop, req), req.key) && Redeems(req.payload.couponId, req.user)
    ensures var c := req.payload.couponId.value;
            c in s.coupons && Some(s.coupons[c].owner) == req.user && s.coupons[c].status == Active
  {
    hide Create, ClaimKey, PlanSlot, TakeLines, Subtotal;
    var replay, keys, slots, plan, products, items, total := CreateStages(s, shop, req);
  }

  /** The preview refuses a coupon exactly if it is not the customer's own, or not active. */
  lemma PreviewsOwn(coupons: map<int, Coupon>, id: int, user: int, subtotal: int, items: seq<Item>)
    ensures CouponDiscount(coupons, Some(id), Some(user), subtotal, items).Ok? <==>
            id in coupons && coupons[id].owner == user && coupons[id].status == Active
    ensures CouponDiscount(coupons, Some(id), Some(user), subtotal, items).Err? ==>
            CouponDiscount(coupons, Some(id), Some(user), subtotal, items) == Err(CouponUnusable)
  {
  }

  /** A free drink is worth a cheapest unit, an amount at most itself and the subtotal, once its minimum is reached. */
  lemma DiscountGives(kind: CouponKind, subtotal: int, items: seq<Item>, d: int)
    ensures kind == FreeAnyDrink && items != [] ==> IsLeast(items, Discount(kind, subtotal, items))
    ensures kind.AmountOff? ==>
            (d <= Discount(kind, subtotal, items) <==>
              if kind.minimum.Some? && subtotal < HalfUp(kind.minimum.value) then d <= 0
              else d <= HalfUp(kind.amount) && d <= subtotal)
    ensures kind == UnsupportedKind ==> Discount(kind, subtotal, items) == 0
  {
  }

  lemma CappedShare(share: real, limit: int, n: int)
    ensures HalfUp(MinReal(MinReal(share, limit as real), n as real)) ==
            if share <= Min(limit, n) as real then HalfUp(share) else Min(limit, n)
  {
    WholeIsItself(Min(limit, n));
    hide HalfUp;
  }

  lemma WholeIsItself(n: int)
    ensures HalfUp(n as real) == n
  {
  }

  /** A percentage takes its share of the subtotal, rounded to a nearest cent, where neither cap nor subtotal is below it. */
  lemma PercentageGives(percentage: real, cap: Option<real>, subtotal: nat, items: seq<Item>)
    ensures var share := Share(subtotal, percentage);
            var limit := if cap.Some? then Min(HalfUp(cap.value), subtotal) else subtotal;
            Discount(PercentageOff(percentage, cap), subtotal, items) ==
            if share <= limit as real then HalfUp(share) else limit
    ensures 100.0 * Share(subtotal, percentage) == subtotal as real * percentage
  {
    ShareIsPart(subtotal, percentage);
    hide HalfUp, MinReal, Share;
    CappedShare(Share(subtotal, percentage), if cap.Some? then HalfUp(cap.value) else subtotal, subtotal);
  }

  lemma ShareIsPart(subtotal: int, percentage: real)
    ensures 100.0 * Share(subtotal, percentage) == subtotal as real * percentage
  {
  }
}
