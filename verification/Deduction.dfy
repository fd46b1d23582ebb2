/** What the deduction loop of order creation accepts and does, and how cancelling undoes it. */
module Deduction {
  import opened Wrappers
  import opened Tables
  import opened Inventories
  import opened Pricing
  import opened Orders

  /** Units of a product over all lines of a request, repeated products included. */
  function Wanted(lines: seq<Line>, id: int): nat {
    if lines == [] then 0
    else (if lines[0].productId == id then lines[0].quantity else 0) + Wanted(lines[1..], id)
  }

  lemma {:induction false} WantedCovers(lines: seq<Line>, i: nat)
    requires i < |lines|
    ensures Wanted(lines, lines[i].productId) >= lines[i].quantity
  {
    if i > 0 {
      assert lines[1..][i - 1] == lines[i];
      WantedCovers(lines[1..], i - 1);
    }
  }

  predicate Sellable(products: map<int, Product>, options: map<int, SpecOption>, line: Line) {
    && line.productId in products
    && products[line.productId].active
    && products[line.productId].inventory == InStock
    && PickOptions(options, products[line.productId].groups, line.options, 0).Ok?
  }

  /** The line can be sold and the stock of its product covers all the lines that want it. */
  predicate Covered(products: map<int, Product>, options: map<int, SpecOption>, lines: seq<Line>, i: nat)
    requires i < |lines|
  {
    Sellable(products, options, lines[i]) && Wanted(lines, lines[i].productId) <= products[lines[i].productId].stock
  }

  predicate Sufficient(products: map<int, Product>, options: map<int, SpecOption>, lines: seq<Line>) {
    forall i :: 0 <= i < |lines| ==> Covered(products, options, lines, i)
  }

  /** The rest of the lines, against what the first one leaves, in place of all lines. */
  lemma RestCovered(products: map<int, Product>, options: map<int, SpecOption>, lines: seq<Line>, i: nat)
    requires 0 < i < |lines| && QuoteLine(products, options, lines[0]).Ok?
    ensures var left := products[lines[0].productId := Deduct(products[lines[0].productId], lines[0].quantity)];
            Covered(products, options, lines, i) <==> Covered(left, options, lines[1..], i - 1)
  {
    WantedCovers(lines[1..], i - 1);
  }

  /** The first line is covered with the others, or it is the only one of its product. */
  lemma FirstCovered(products: map<int, Product>, options: map<int, SpecOption>, lines: seq<Line>)
    requires lines != [] && QuoteLine(products, options, lines[0]).Ok?
    ensures Covered(products, options, lines, 0) || exists i :: 0 < i < |lines| && !Covered(products, options, lines, i)
  {
    hide PickOptions;
    var id := lines[0].productId;
    if forall i :: 0 <= i < |lines[1..]| ==> lines[1..][i].productId != id {
      WantedNone(lines[1..], id);
    } else {
      var i :| 0 <= i < |lines[1..]| && lines[1..][i].productId == id;
      assert lines[i + 1] == lines[1..][i];
      assert Covered(products, options, lines, i + 1) ==> Covered(products, options, lines, 0);
    }
  }

  lemma SufficientStep(products: map<int, Product>, options: map<int, SpecOption>, lines: seq<Line>)
    requires lines != [] && QuoteLine(products, options, lines[0]).Ok?
    ensures var left := products[lines[0].productId := Deduct(products[lines[0].productId], lines[0].quantity)];
            Sufficient(products, options, lines) <==> Sufficient(left, options, lines[1..])
  {
    hide Covered, QuoteLine;
    QuotedInStock(products, options, lines[0]);
    var left := products[lines[0].productId := Deduct(products[lines[0].productId], lines[0].quantity)];
    forall i | 0 < i < |lines|
      ensures Covered(products, options, lines, i) <==> Covered(left, options, lines[1..], i - 1)
    {
      RestCovered(products, options, lines, i);
    }
    forall i | 0 <= i < |lines[1..]|
      ensures Covered(left, options, lines[1..], i) <==> Covered(products, options, lines, i + 1)
    {
    }
    FirstCovered(products, options, lines);
  }

  lemma UnquotedIsUncovered(products: map<int, Product>, options: map<int, SpecOption>, lines: seq<Line>)
    requires lines != [] && QuoteLine(products, options, lines[0]).Err?
    ensures !Covered(products, options, lines, 0)
  {
    WantedCovers(lines, 0);
  }

  /** The loop, deducting line by line, succeeds exactly when total demand is covered for each product. */
  lemma {:induction false} TakesExactly(products: map<int, Product>, options: map<int, SpecOption>,
                                        done: seq<Item>, lines: seq<Line>)
    ensures TakeLines(products, options, done, lines).Ok? <==> Sufficient(products, options, lines)
    decreases lines
  {
    hide QuoteLine, Covered;
    if lines != [] {
      match QuoteLine(products, options, lines[0])
      case Err(e) =>
        UnquotedIsUncovered(products, options, lines);
      case Ok(item) =>
        QuotedInStock(products, options, lines[0]);
        SufficientStep(products, options, lines);
        TakesExactly(products[lines[0].productId := Deduct(products[lines[0].productId], lines[0].quantity)], options,
                     done + [item], lines[1..]);
    }
  }

  lemma QuotedInStock(products: map<int, Product>, options: map<int, SpecOption>, line: Line)
    requires QuoteLine(products, options, line).Ok?
    ensures line.productId in products && line.quantity <= products[line.productId].stock
  {
  }

  lemma {:induction false} WantedNone(lines: seq<Line>, id: int)
    requires forall i :: 0 <= i < |lines| ==> lines[i].productId != id
    ensures Wanted(lines, id) == 0
  {
    if lines != [] {
      WantedNone(lines[1..], id);
    }
  }

  /** Each product ends with its demand gone, sold out exactly if that emptied it; the items record that demand. */
  lemma {:induction false} TakesDemand(products: map<int, Product>, options: map<int, SpecOption>,
                                       done: seq<Item>, lines: seq<Line>,
                                       products': map<int, Product>, items: seq<Item>, id: int)
    requires TakeLines(products, options, done, lines) == Ok((products', items))
    ensures products'.Keys == products.Keys
    ensures Units(items, id) == Units(done, id) + Wanted(lines, id)
    ensures id in products ==>
      var p, demand := products[id], Wanted(lines, id);
      && demand <= p.stock
      && products'[id] == p.(stock := p.stock - demand,
                             inventory := if 0 < demand == p.stock then SoldOut else p.inventory)
    ensures id !in products ==> Wanted(lines, id) == 0
    decreases lines
  {
    if lines != [] {
      var first := lines[0];
      var item := QuoteLine(products, options, first).value;
      assert (done + [item])[..|done|] == done;
      TakesDemand(products[first.productId := Deduct(products[first.productId], first.quantity)], options,
                  done + [item], lines[1..], products', items, id);
    }
  }

  /** The rows a preview reads and the rows the loop has reached differ only in what was deducted. */
  ghost predicate Depleted(products: map<int, Product>, original: map<int, Product>) {
    && products.Keys == original.Keys
    && forall id :: id in products ==>
         && products[id].stock <= original[id].stock
         && products[id].active == original[id].active
         && products[id].basePrice == original[id].basePrice
         && products[id].groups == original[id].groups
         && (products[id].inventory == InStock ==> original[id].inventory == InStock)
  }

  /** Lines that creation takes, the preview accepts with the same items and prices. */
  lemma {:induction false} TakenIsQuoted(products: map<int, Product>, original: map<int, Product>,
                                         options: map<int, SpecOption>,
                                         done: seq<Item>, lines: seq<Line>)
    requires Depleted(products, original)
    requires TakeLines(products, options, done, lines).Ok?
    ensures QuoteLines(original, options, done, lines) == Ok(TakeLines(products, options, done, lines).value.1)
    decreases lines
  {
    if lines != [] {
      var first := lines[0];
      var item := QuoteLine(products, options, first).value;
      assert QuoteLine(original, options, first) == Ok(item);
      TakenIsQuoted(products[first.productId := Deduct(products[first.productId], first.quantity)], original, options,
                    done + [item], lines[1..]);
    }
  }

  ghost predicate DistinctProducts(lines: seq<Line>) {
    forall i, j :: 0 <= i < j < |lines| ==> lines[i].productId != lines[j].productId
  }

  lemma {:induction false} QuotedEach(products: map<int, Product>, options: map<int, SpecOption>,
                                      done: seq<Item>, lines: seq<Line>)
    requires QuoteLines(products, options, done, lines).Ok?
    ensures forall i :: 0 <= i < |lines| ==> QuoteLine(products, options, lines[i]).Ok?
    decreases lines
  {
    if lines != [] {
      var item := QuoteLine(products, options, lines[0]).value;
      QuotedEach(products, options, done + [item], lines[1..]);
      assert forall i :: 0 < i < |lines| ==> lines[i] == lines[1..][i - 1];
    }
  }

  lemma {:induction false} WantedOnce(lines: seq<Line>, i: nat)
    requires i < |lines| && DistinctProducts(lines)
    ensures Wanted(lines, lines[i].productId) == lines[i].quantity
  {
    if i == 0 {
      WantedNone(lines[1..], lines[0].productId);
    } else {
      assert lines[1..][i - 1] == lines[i];
      WantedOnce(lines[1..], i - 1);
    }
  }

  /** Lines the preview accepts, creation takes exactly when the stock of each product covers all of them together. */
  lemma QuotedIsTakenExactly(products: map<int, Product>, options: map<int, SpecOption>, lines: seq<Line>)
    requires QuoteLines(products, options, [], lines).Ok?
    ensures TakeLines(products, options, [], lines).Ok? <==>
            forall i :: 0 <= i < |lines| ==>
              lines[i].productId in products && Wanted(lines, lines[i].productId) <= products[lines[i].productId].stock
  {
    QuotedEach(products, options, [], lines);
    TakesExactly(products, options, [], lines);
    forall i | 0 <= i < |lines|
      ensures lines[i].productId in products
      ensures Covered(products, options, lines, i) <==>
              Wanted(lines, lines[i].productId) <= products[lines[i].productId].stock
    {
      assert QuoteLine(products, options, lines[i]).Ok?;
    }
    hide Covered, QuoteLine, TakeLines, Sellable;
  }

  /** With no product repeated, creation and preview accept exactly the same lines. */
  lemma DistinctQuotedIsTaken(products: map<int, Product>, options: map<int, SpecOption>, lines: seq<Line>)
    requires DistinctProducts(lines)
    ensures QuoteLines(products, options, [], lines).Ok? <==> TakeLines(products, options, [], lines).Ok?
  {
    if TakeLines(products, options, [], lines).Ok? {
      TakenIsQuoted(products, products, options, [], lines);
    }
    if QuoteLines(products, options, [], lines).Ok? {
      QuotedEach(products, options, [], lines);
      forall i | 0 <= i < |lines|
        ensures lines[i].productId in products && Wanted(lines, lines[i].productId) <= products[lines[i].productId].stock
      {
        WantedOnce(lines, i);
        assert QuoteLine(products, options, lines[i]).Ok?;
      }
      QuotedIsTakenExactly(products, options, lines);
    }
  }

  /** A repeated product can pass the preview's per-line check and fail at creation: three wanted, two left. */
  lemma RepeatedQuotedNotTaken()
    ensures var products := map[1 := Product(true, InStock, 2, 900, {})];
            var lines := [Line(1, 2, []), Line(1, 1, [])];
            QuoteLines(products, map[], [], lines).Ok? && TakeLines(products, map[], [], lines).Err?
  {
  }

  /** Restocking the items of taken lines gives back every product row, stock and status. */
  lemma RestockUndoes(products: map<int, Product>, options: map<int, SpecOption>, lines: seq<Line>,
                      products': map<int, Product>, items: seq<Item>)
    requires TakeLines(products, options, [], lines) == Ok((products', items))
    ensures Restored(products', items) == products
  {
    TakesExactly(products, options, [], lines);
    forall id | id in products
      ensures id in products' && Restock(products'[id], Units(items, id)) == products[id]
    {
      TakesDemand(products, options, [], lines, products', items, id);
      if products[id].inventory != InStock {
        forall i | 0 <= i < |lines|
          ensures lines[i].productId != id
        {
          assert Covered(products, options, lines, i);
        }
        WantedNone(lines, id);
      }
    }
    assert products'.Keys == products.Keys by {
      TakesDemand(products, options, [], lines, products', items, 0);
    }
  }
}
