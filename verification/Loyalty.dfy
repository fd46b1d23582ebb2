/** Loyalty points and the coupons they turn into (app/services/loyalty.py). */
module Loyalty {
  import opened Wrappers
  import opened Tables
  import opened Sorting
  import opened Inventories
  import opened Invariants
  import opened Engine
  import opened Outcomes

  const THRESHOLD: int := 10

  datatype Reason = OrderPaid | CouponGrant

  /** One row of loyalty_transactions. */
  datatype Entry = Entry(user: int, order: Option<nat>, delta: int, reason: Reason)

  datatype Book = Book(points: map<int, int>, ledger: seq<Entry>, coupons: seq<Coupon>)

  // ---------- one award ----------

  function Cups(items: seq<Item>): nat {
    if items == [] then 0 else Cups(items[..|items| - 1]) + items[|items| - 1].quantity
  }

  /** Rounded down; nothing for no cups or a ratio that is not positive. */
  function Points(cups: nat, ratio: real): (p: nat)
    ensures ratio > 0.0 ==> p as real <= cups as real * ratio < p as real + 1.0
    ensures ratio <= 0.0 ==> p == 0
  {
    if cups == 0 || ratio <= 0.0 then 0 else (cups as real * ratio).Floor
  }

  /** The query of the duplicate check. */
  predicate Recorded(ledger: seq<Entry>, user: int, k: nat) {
    exists i :: 0 <= i < |ledger| && ledger[i].user == user && ledger[i].order == Some(k) && ledger[i].reason == OrderPaid
  }

  /** One settled order handed to the service, with or without the duplicate check. */
  datatype Purchase = Purchase(k: nat, order: Order, skip: bool)

  /** The points this award books: none without a customer, for a duplicate, or for an unknown user. */
  function Granted(b: Book, paid: Purchase, ratio: real): nat {
    if paid.order.user.None? then 0
    else if !paid.skip && Recorded(b.ledger, paid.order.user.value, paid.k) then 0
    else if paid.order.user.value !in b.points then 0
    else Points(Cups(paid.order.items), ratio)
  }

  function Issue(b: Book, user: int, n: nat): Book {
    if n == 0 then b
    else
      var c := Issue(b, user, n - 1);
      c.(ledger := c.ledger + [Entry(user, None, -THRESHOLD, CouponGrant)],
         coupons := c.coupons + [Coupon(user, FreeAnyDrink, Active, None)])
  }

  /** Coupons a balance pays for; range() of a negative number is empty. */
  function Affordable(total: int): nat {
    if total < 0 then 0 else total / THRESHOLD
  }

  function Award(b: Book, paid: Purchase, ratio: real): Book {
    var p := Granted(b, paid, ratio);
    if p == 0 then b
    else
      var user := paid.order.user.value;
      var total := b.points[user] + p;
      Issue(b.(points := b.points[user := total % THRESHOLD],
               ledger := b.ledger + [Entry(user, Some(paid.k), p, OrderPaid)]),
            user, Affordable(total))
  }

  /** The rows the service changes in place. */
  class Accounts {
    var points: map<int, int>
    var ledger: seq<Entry>
    var coupons: seq<Coupon>

    function View(): Book
      reads this
    {
      Book(points, ledger, coupons)
    }

    method IssueCoupon(user: int)
      modifies this
      ensures View() == Issue(old(View()), user, 1)
    {
      ledger := ledger + [Entry(user, None, -THRESHOLD, CouponGrant)];
      coupons := coupons + [Coupon(user, FreeAnyDrink, Active, None)];
      assert Issue(old(View()), user, 0) == old(View());
    }

    method AwardOnPayment(paid: Purchase, ratio: real)
      modifies this
      ensures View() == Award(old(View()), paid, ratio)
    {
      if paid.order.user.None? {
        return;
      }
      var user := paid.order.user.value;
      if !paid.skip {
        if Recorded(ledger, user, paid.k) {
          return;
        }
      }
      var p := Points(Cups(paid.order.items), ratio);
      if p <= 0 {
        return;
      }
      if user !in points {
        return;
      }
      var total := points[user] + p;
      points := points[user := total % THRESHOLD];
      ledger := ledger + [Entry(user, Some(paid.k), p, OrderPaid)];
      ghost var booked := View();
      var n := Affordable(total);
      for i := 0 to n
        invariant View() == Issue(booked, user, i)
      {
        IssueOneMore(booked, user, i);
        IssueCoupon(user);
      }
    }
  }

  lemma IssueOneMore(b: Book, user: int, n: nat)
    ensures Issue(Issue(b, user, n), user, 1) == Issue(b, user, n + 1)
  {
  }

  // ---------- what one award changes ----------

  /** Sum of a user's ledger. */
  function LedgerSum(ledger: seq<Entry>, user: int): int {
    if ledger == [] then 0
    else
      var last := ledger[|ledger| - 1];
      LedgerSum(ledger[..|ledger| - 1], user) + if last.user == user then last.delta else 0
  }

  /** Rows that took ten points for a coupon. */
  function GrantRows(ledger: seq<Entry>, user: int): nat {
    if ledger == [] then 0
    else
      var last := ledger[|ledger| - 1];
      GrantRows(ledger[..|ledger| - 1], user) + if last == Entry(user, None, -10, CouponGrant) then 1 else 0
  }

  /** Rows that booked an order. */
  function OrderRows(ledger: seq<Entry>, user: int, k: nat): nat {
    if ledger == [] then 0
    else
      var last := ledger[|ledger| - 1];
      OrderRows(ledger[..|ledger| - 1], user, k) +
      if last.user == user && last.order == Some(k) && last.reason == OrderPaid then 1 else 0
  }

  /** Free-drink coupons the user can spend. */
  function Owned(coupons: seq<Coupon>, user: int): nat {
    if coupons == [] then 0
    else
      Owned(coupons[..|coupons| - 1], user) +
      if coupons[|coupons| - 1] == Coupon(user, FreeAnyDrink, Active, None) then 1 else 0
  }

  lemma Appended(ledger: seq<Entry>, e: Entry, coupons: seq<Coupon>, c: Coupon)
    ensures (ledger + [e])[..|ledger|] == ledger && (coupons + [c])[..|coupons|] == coupons
  {
  }

  lemma {:induction false} IssueFacts(b: Book, user: int, n: nat, u: int, k: nat)
    ensures var c := Issue(b, user, n);
            var m := if u == user then n else 0;
            && c.points == b.points
            && LedgerSum(c.ledger, u) == LedgerSum(b.ledger, u) - 10 * m
            && GrantRows(c.ledger, u) == GrantRows(b.ledger, u) + m
            && Owned(c.coupons, u) == Owned(b.coupons, u) + m
            && OrderRows(c.ledger, u, k) == OrderRows(b.ledger, u, k)
            && b.ledger <= c.ledger
  {
    if n > 0 {
      var c := Issue(b, user, n - 1);
      IssueFacts(b, user, n - 1, u, k);
      Appended(c.ledger, Entry(user, None, -THRESHOLD, CouponGrant), c.coupons, Coupon(user, FreeAnyDrink, Active, None));
    }
  }

  /** What an award books for user `u`. */
  function GrantedTo(b: Book, paid: Purchase, ratio: real, u: int): nat {
    if paid.order.user == Some(u) then Granted(b, paid, ratio) else 0
  }

  lemma GrantedToNobody(b: Book, paid: Purchase, ratio: real)
    ensures Granted(b, paid, ratio) > 0 ==> paid.order.user.Some? && paid.order.user.value in b.points
  {
  }

  lemma EntryFacts(ledger: seq<Entry>, user: int, k: nat, p: nat, u: int, k': nat)
    ensures var after := ledger + [Entry(user, Some(k), p, OrderPaid)];
            && LedgerSum(after, u) == LedgerSum(ledger, u) + (if user == u then p else 0)
            && GrantRows(after, u) == GrantRows(ledger, u)
            && OrderRows(after, u, k') == OrderRows(ledger, u, k') + (if user == u && k == k' then 1 else 0)
  {
  }

  /** Tens that disappear when a negative balance is reduced modulo ten. */
  function Forgiven(total: int): nat {
    if total < 0 then -(total / THRESHOLD) else 0
  }

  /** For one user: points and coupons carry, the ledger balances, every coupon has its row. */
  lemma AwardFacts(b: Book, paid: Purchase, ratio: real, u: int, k: nat)
    requires u in b.points
    ensures var c, p := Award(b, paid, ratio), GrantedTo(b, paid, ratio, u);
            var f := if p == 0 then 0 else Forgiven(b.points[u] + p);
            && c.points.Keys == b.points.Keys
            && c.points[u] == (if p == 0 then b.points[u] else (b.points[u] + p) % 10)
            && Owned(c.coupons, u) == Owned(b.coupons, u) + (if p == 0 then 0 else (b.points[u] + p) / 10 + f)
            && c.points[u] - LedgerSum(c.ledger, u) == b.points[u] - LedgerSum(b.ledger, u) + 10 * f
            && Owned(c.coupons, u) - GrantRows(c.ledger, u) == Owned(b.coupons, u) - GrantRows(b.ledger, u)
            && OrderRows(c.ledger, u, k) == OrderRows(b.ledger, u, k) + (if p > 0 && paid.k == k then 1 else 0)
            && b.ledger <= c.ledger
  {
    hide Issue, Granted, LedgerSum, GrantRows, OrderRows, Owned;
    var p := Granted(b, paid, ratio);
    GrantedToNobody(b, paid, ratio);
    if p > 0 {
      var user := paid.order.user.value;
      var total := b.points[user] + p;
      var e := Entry(user, Some(paid.k), p, OrderPaid);
      EntryFacts(b.ledger, user, paid.k, p, u, k);
      IssueFacts(b.(points := b.points[user := total % THRESHOLD], ledger := b.ledger + [e]), user, Affordable(total), u, k);
    }
  }

  // ---------- cups are units ----------

  /** Units of the items over a list of products. */
  function UnitsOver(items: seq<Item>, ids: seq<int>): nat {
    if ids == [] then 0 else Units(items, ids[0]) + UnitsOver(items, ids[1..])
  }

  lemma {:induction false} UnitsOverAppend(items: seq<Item>, x: Item, ids: seq<int>)
    requires NoDups(ids)
    ensures UnitsOver(items + [x], ids) == UnitsOver(items, ids) + if x.productId in ids then x.quantity else 0
    decreases ids
  {
    assert (items + [x])[..|items|] == items;
    if ids != [] {
      UnitsOverAppend(items, x, ids[1..]);
      assert ids == [ids[0]] + ids[1..];
    }
  }

  lemma {:induction false} NoUnits(ids: seq<int>)
    ensures UnitsOver([], ids) == 0
  {
    if ids != [] {
      NoUnits(ids[1..]);
    }
  }

  /** An order's cups are the units of all its products together, whatever lines they came in. */
  lemma {:induction false} CupsAreUnits(items: seq<Item>, ids: seq<int>)
    requires NoDups(ids) && forall i :: 0 <= i < |items| ==> items[i].productId in ids
    ensures Cups(items) == UnitsOver(items, ids)
  {
    if items == [] {
      NoUnits(ids);
    } else {
      var init, last := items[..|items| - 1], items[|items| - 1];
      CupsAreUnits(init, ids);
      UnitsOverAppend(init, last, ids);
      assert items == init + [last];
    }
  }

  /** The award counts: a known customer, and no check or none booked before. */
  predicate Countable(b: Book, paid: Purchase, u: int) {
    && paid.order.user == Some(u) && u in b.points
    && (paid.skip || forall i :: 0 <= i < |b.ledger| ==>
          !(b.ledger[i].user == u && b.ledger[i].order == Some(paid.k) && b.ledger[i].reason == OrderPaid))
  }

  /** An award changes the book exactly if it counts and its order earns a point. */
  lemma AwardsExactly(b: Book, paid: Purchase, ratio: real)
    ensures Award(b, paid, ratio) != b <==>
            && paid.order.user.Some? && Countable(b, paid, paid.order.user.value)
            && Points(Cups(paid.order.items), ratio) > 0
  {
    hide Points, Cups;
    var p := Granted(b, paid, ratio);
    if p > 0 {
      var user := paid.order.user.value;
      AwardGrows(b, paid, ratio);
      AwardRow(b, paid, ratio, user);
    }
  }

  /**
   An award that counts books the units of the order, times the ratio and rounded
   down, in one row of the ledger, and carries them into points and coupons.
   */
  lemma AwardBooksUnits(b: Book, paid: Purchase, ratio: real, u: int, ids: seq<int>, p: nat)
    requires Countable(b, paid, u) && b.points[u] >= 0
    requires NoDups(ids) && forall i :: 0 <= i < |paid.order.items| ==> paid.order.items[i].productId in ids
    requires ratio > 0.0 && p as real <= UnitsOver(paid.order.items, ids) as real * ratio < p as real + 1.0
    ensures var c := Award(b, paid, ratio);
            if p == 0 then c == b
            else
              && u in c.points && c.points[u] == (b.points[u] + p) % 10
              && Owned(c.coupons, u) == Owned(b.coupons, u) + (b.points[u] + p) / 10
              && b.ledger + [Entry(u, Some(paid.k), p, OrderPaid)] <= c.ledger
  {
    hide Points, Cups, UnitsOver, NoDups, LedgerSum, GrantRows, OrderRows, Owned, Award;
    CupsAreUnits(paid.order.items, ids);
    PointsAre(UnitsOver(paid.order.items, ids), ratio, p);
    AwardRow(b, paid, ratio, u);
    AwardFacts(b, paid, ratio, u, paid.k);
  }

  lemma AwardRow(b: Book, paid: Purchase, ratio: real, u: int)
    requires Countable(b, paid, u)
    ensures var p := Points(Cups(paid.order.items), ratio);
            && Granted(b, paid, ratio) == p
            && (p == 0 ==> Award(b, paid, ratio) == b)
            && (p > 0 ==> b.ledger + [Entry(u, Some(paid.k), p, OrderPaid)] <= Award(b, paid, ratio).ledger)
  {
    hide Points, Cups, Issue;
    var p := Points(Cups(paid.order.items), ratio);
    var e := Entry(u, Some(paid.k), p, OrderPaid);
    var booked := b.(points := b.points[u := (b.points[u] + p) % THRESHOLD], ledger := b.ledger + [e]);
    IssueFacts(booked, u, Affordable(b.points[u] + p), u, paid.k);
  }

  lemma PointsAre(cups: nat, ratio: real, p: nat)
    requires ratio > 0.0 && p as real <= cups as real * ratio < p as real + 1.0
    ensures Points(cups, ratio) == p
  {
  }

  // ---------- any sequence of awards ----------

  function AwardAll(b: Book, paids: seq<Purchase>, ratio: real): Book
    decreases paids
  {
    if paids == [] then b else AwardAll(Award(b, paids[0], ratio), paids[1..], ratio)
  }

  /** Total points booked for user `u`. */
  function Earned(b: Book, paids: seq<Purchase>, ratio: real, u: int): nat
    decreases paids
  {
    if paids == [] then 0
    else GrantedTo(b, paids[0], ratio, u) + Earned(Award(b, paids[0], ratio), paids[1..], ratio, u)
  }

  /** The first award that books something for user `u`. */
  function FirstEarned(b: Book, paids: seq<Purchase>, ratio: real, u: int): nat
    decreases paids
  {
    if paids == [] then 0
    else
      var p := GrantedTo(b, paids[0], ratio, u);
      if p > 0 then p else FirstEarned(Award(b, paids[0], ratio), paids[1..], ratio, u)
  }

  /** What a negative start loses at the first award; nothing from a start that is not negative. */
  function Lost(start: int, first: nat): nat {
    if first == 0 then 0 else Forgiven(start + first)
  }

  lemma CarryAgain(s: int, p: nat, e: nat)
    ensures ((s + p) % 10 + e) % 10 == (s + p + e) % 10
    ensures (s + p) / 10 + ((s + p) % 10 + e) / 10 == (s + p + e) / 10
  {
  }

  /**
   Any awards, to any users, with or without the check: a user who earned something
   ends with (start + earned) mod 10 points and (start + earned) div 10 new coupons,
   however the earnings were split; points stay the start plus the ledger's sum; and
   each coupon pairs with one row of minus ten.  Both amounts are off by the tens a
   start so far below zero that the first award does not make it up loses there, so
   the books balance exactly when there is no such loss.
   */
  lemma {:induction false} AwardsCarry(b: Book, paids: seq<Purchase>, ratio: real, u: int)
    requires u in b.points
    ensures var c, e, s := AwardAll(b, paids, ratio), Earned(b, paids, ratio, u), b.points[u];
            var first := FirstEarned(b, paids, ratio, u);
            var lost := Lost(s, first);
            && u in c.points
            && c.points[u] == (if e == 0 then s else (s + e) % 10)
            && Owned(c.coupons, u) == Owned(b.coupons, u) + (if e == 0 then 0 else (s + e) / 10 + lost)
            && c.points[u] == s + LedgerSum(c.ledger, u) - LedgerSum(b.ledger, u) + 10 * lost
            && Owned(c.coupons, u) - Owned(b.coupons, u) == GrantRows(c.ledger, u) - GrantRows(b.ledger, u)
            && (lost == 0 <==> e == 0 || s + first >= 0)
            && first <= e && (first == 0 <==> e == 0)
    decreases paids
  {
    hide Award, GrantedTo, LedgerSum, GrantRows, Owned, OrderRows;
    if paids != [] {
      var next := Award(b, paids[0], ratio);
      AwardFacts(b, paids[0], ratio, u, 0);
      AwardsCarry(next, paids[1..], ratio, u);
      CarryAgain(b.points[u], GrantedTo(b, paids[0], ratio, u), Earned(next, paids[1..], ratio, u));
    }
  }

  /** Units of the orders of all the purchases. */
  function TotalCups(paids: seq<Purchase>): nat {
    if paids == [] then 0 else Cups(paids[0].order.items) + TotalCups(paids[1..])
  }

  /** All are orders of the user, awarded without the check. */
  predicate AllOf(paids: seq<Purchase>, u: int) {
    forall i :: 0 <= i < |paids| ==> paids[i].order.user == Some(u) && paids[i].skip
  }

  lemma {:induction false} EarnedIsCups(b: Book, paids: seq<Purchase>, u: int)
    requires AllOf(paids, u) && u in b.points
    ensures Earned(b, paids, 1.0, u) == TotalCups(paids)
    decreases paids
  {
    hide Award, Cups, Points;
    if paids != [] {
      AwardGrows(b, paids[0], 1.0);
      PointsAre(Cups(paids[0].order.items), 1.0, Cups(paids[0].order.items));
      assert AllOf(paids[1..], u) by {
        assert forall i :: 0 <= i < |paids[1..]| ==> paids[1..][i] == paids[i + 1];
      }
      EarnedIsCups(Award(b, paids[0], 1.0), paids[1..], u);
    }
  }

  lemma EarnsCups(b: Book, paids: seq<Purchase>, u: int)
    requires AllOf(paids, u) && u in b.points && b.points[u] >= 0
    ensures var c, total := AwardAll(b, paids, 1.0), b.points[u] + TotalCups(paids);
            && u in c.points && c.points[u] == (if TotalCups(paids) == 0 then b.points[u] else total % 10)
            && Owned(c.coupons, u) == Owned(b.coupons, u) + (if TotalCups(paids) == 0 then 0 else total / 10)
            && LedgerSum(c.ledger, u) - LedgerSum(b.ledger, u) == c.points[u] - b.points[u]
  {
    EarnedIsCups(b, paids, u);
    AwardsCarry(b, paids, 1.0, u);
    hide AwardAll, Owned, LedgerSum, GrantRows, AllOf, TotalCups, Earned, FirstEarned;
  }

  /** At one point a cup, the same number of cups earns the same points and coupons however it is split over orders. */
  lemma SplitsEarnAlike(b: Book, ps: seq<Purchase>, qs: seq<Purchase>, u: int)
    requires AllOf(ps, u) && AllOf(qs, u) && TotalCups(ps) == TotalCups(qs)
    requires u in b.points && b.points[u] >= 0
    ensures var c, d := AwardAll(b, ps, 1.0), AwardAll(b, qs, 1.0);
            && u in c.points && u in d.points && c.points[u] == d.points[u]
            && Owned(c.coupons, u) == Owned(d.coupons, u)
            && LedgerSum(c.ledger, u) == LedgerSum(d.ledger, u)
  {
    hide AwardAll, Owned, LedgerSum, AllOf, TotalCups;
    EarnsCups(b, ps, u);
    EarnsCups(b, qs, u);
  }

  /** Three of one drink on one line, at ratio one: three points. */
  lemma ThreeCups()
    ensures Cups([Item(1, 3, 900)]) == 3 && Points(3, 1.0) == 3
  {
    assert [Item(1, 3, 900)][..0] == [];
  }

  // ---------- the duplicate check ----------

  lemma RecordedStays(ledger: seq<Entry>, ledger': seq<Entry>, user: int, k: nat)
    requires ledger <= ledger' && Recorded(ledger, user, k)
    ensures Recorded(ledger', user, k)
  {
  }

  lemma AwardGrows(b: Book, paid: Purchase, ratio: real)
    ensures var c := Award(b, paid, ratio); c.points.Keys == b.points.Keys && b.ledger <= c.ledger
    ensures Granted(b, paid, ratio) > 0 ==> Recorded(Award(b, paid, ratio).ledger, paid.order.user.value, paid.k)
  {
    hide Issue, Points, Cups;
    var p := Granted(b, paid, ratio);
    if p > 0 {
      var user := paid.order.user.value;
      var total := b.points[user] + p;
      var e := Entry(user, Some(paid.k), p, OrderPaid);
      var booked := b.(points := b.points[user := total % THRESHOLD], ledger := b.ledger + [e]);
      IssueFacts(booked, user, Affordable(total), user, paid.k);
      assert booked.ledger[|b.ledger|] == e;
      assert Recorded(booked.ledger, user, paid.k);
      RecordedStays(booked.ledger, Award(b, paid, ratio).ledger, user, paid.k);
    }
  }

  lemma {:induction false} AwardsGrow(b: Book, paids: seq<Purchase>, ratio: real)
    ensures var c := AwardAll(b, paids, ratio); c.points.Keys == b.points.Keys && b.ledger <= c.ledger
    decreases paids
  {
    hide Award;
    if paids != [] {
      AwardGrows(b, paids[0], ratio);
      AwardsGrow(Award(b, paids[0], ratio), paids[1..], ratio);
    }
  }

  /**
   With the check on, awarding an order again changes nothing, whatever was awarded
   in between and however the first award was made; orders worth no points included.
   */
  lemma CheckedAgainIsNothing(b: Book, first: Purchase, between: seq<Purchase>, again: Purchase, ratio: real)
    requires again.k == first.k && again.order.user == first.order.user && again.order.items == first.order.items && !again.skip
    ensures var c := AwardAll(Award(b, first, ratio), between, ratio); Award(c, again, ratio) == c
  {
    hide Issue, Points, Cups, Recorded;
    var next := Award(b, first, ratio);
    AwardGrows(b, first, ratio);
    AwardsGrow(next, between, ratio);
    if Granted(b, first, ratio) > 0 {
      RecordedStays(next.ledger, AwardAll(next, between, ratio).ledger, first.order.user.value, first.k);
    } else if first.order.user.Some? && Recorded(b.ledger, first.order.user.value, first.k) {
      RecordedStays(b.ledger, AwardAll(next, between, ratio).ledger, first.order.user.value, first.k);
    }
  }

  /** With the check skipped, the same award changes the book exactly when the order earns a known user points. */
  lemma SkippedAgainExactly(b: Book, paid: Purchase, ratio: real)
    requires paid.skip
    ensures Award(b, paid, ratio) != b <==>
            paid.order.user.Some? && paid.order.user.value in b.points && Points(Cups(paid.order.items), ratio) > 0
  {
    hide Issue, Points, Cups;
    if Granted(b, paid, ratio) > 0 {
      var user := paid.order.user.value;
      var total := b.points[user] + Granted(b, paid, ratio);
      var e := Entry(user, Some(paid.k), Granted(b, paid, ratio), OrderPaid);
      IssueFacts(b.(points := b.points[user := total % THRESHOLD], ledger := b.ledger + [e]), user, Affordable(total), user, 0);
    }
  }

  // ---------- the payment side effects ----------

  /** The worker's side-effect task, run for each enqueued order; it skips the check. */
  function SideEffects(b: Book, orders: seq<Order>, effects: seq<nat>, ratio: real): Book
    decreases effects
  {
    if effects == [] then b
    else
      var k := effects[0];
      SideEffects(if k < |orders| then Award(b, Purchase(k, orders[k], true), ratio) else b, orders, effects[1..], ratio)
  }

  /** Order `k` belongs to a known customer and is worth points. */
  predicate Rewarding(b: Book, orders: seq<Order>, k: nat, ratio: real) {
    && k < |orders| && orders[k].user.Some?
    && orders[k].user.value in b.points
    && Points(Cups(orders[k].items), ratio) > 0
  }

  lemma AwardStaysRewarding(b: Book, orders: seq<Order>, k: nat, paid: Purchase, ratio: real)
    requires Rewarding(b, orders, k, ratio) && paid.skip && (paid.k == k ==> paid.order == orders[k])
    ensures var c, u := Award(b, paid, ratio), orders[k].user.value;
            && Rewarding(c, orders, k, ratio)
            && OrderRows(c.ledger, u, k) == OrderRows(b.ledger, u, k) + if paid.k == k then 1 else 0
  {
    hide Award, Points, Cups, Recorded, LedgerSum, GrantRows, Owned, OrderRows;
    AwardFacts(b, paid, ratio, orders[k].user.value, k);
  }

  /** Each dispatch of such an order books it once more. */
  lemma {:induction false} EachDispatchBooks(b: Book, orders: seq<Order>, effects: seq<nat>, ratio: real, k: nat)
    requires Rewarding(b, orders, k, ratio)
    ensures var u := orders[k].user.value;
            OrderRows(SideEffects(b, orders, effects, ratio).ledger, u, k) == OrderRows(b.ledger, u, k) + multiset(effects)[k]
    decreases effects
  {
    hide Award, Rewarding, OrderRows;
    RewardingFacts(b, orders, k, ratio);
    if effects != [] {
      var j := effects[0];
      assert effects == [j] + effects[1..];
      if j < |orders| {
        var next := Award(b, Purchase(j, orders[j], true), ratio);
        AwardStaysRewarding(b, orders, k, Purchase(j, orders[j], true), ratio);
        EachDispatchBooks(next, orders, effects[1..], ratio, k);
      } else {
        EachDispatchBooks(b, orders, effects[1..], ratio, k);
      }
    }
  }

  lemma RewardingFacts(b: Book, orders: seq<Order>, k: nat, ratio: real)
    requires Rewarding(b, orders, k, ratio)
    ensures k < |orders| && orders[k].user.Some?
  {
  }

  /**
   Engine and loyalty together: after an order is settled, a run of the engine
   followed by its side effects books the order again exactly once for each callback
   that found it already in production.
   */
  lemma BookedAgainPerCallback(s: Store, es: seq<Event>, k: nat, b: Book, ratio: real)
    requires Valid(s) && k < |s.orders| && s.orders[k].payment == Settled && Rewarding(b, s.orders, k, ratio)
    ensures var t, u := Run(s, es), s.orders[k].user.value;
            && s.effects <= t.effects
            && OrderRows(SideEffects(b, t.orders, t.effects[|s.effects|..], ratio).ledger, u, k) ==
               OrderRows(b.ledger, u, k) + Repeats(s, es, k)
  {
    hide Run, Valid, SideEffects, OrderRows, Repeats;
    var t := Run(s, es);
    RunKeeps(s, es);
    assert OrderLater(s.orders[k], t.orders[k]);
    DispatchesCounted(s, es, k);
    assert t.effects == s.effects + t.effects[|s.effects|..];
    EachDispatchBooks(b, t.orders, t.effects[|s.effects|..], ratio, k);
  }
}
