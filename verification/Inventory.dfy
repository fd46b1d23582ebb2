/** Stock bookkeeping of app/services/inventory.py. */
module Inventories {
  import opened Wrappers
  import opened Tables

  /** Units of a product over the items of one order, repeated products included. */
  function Units(items: seq<Item>, id: int): nat {
    if items == [] then 0
    else Units(items[..|items| - 1], id) +
         (if items[|items| - 1].productId == id then items[|items| - 1].quantity else 0)
  }

  lemma {:induction false} UnitsPositive(items: seq<Item>, id: int)
    ensures Units(items, id) > 0 <==> exists i :: 0 <= i < |items| && items[i].productId == id
  {
    if items != [] {
      var init := items[..|items| - 1];
      UnitsPositive(init, id);
      if Units(init, id) > 0 {
        var i :| 0 <= i < |init| && init[i].productId == id;
        assert items[i].productId == id;
      }
      if i :| 0 <= i < |items| && items[i].productId == id {
        if i < |init| {
          assert init[i].productId == id;
        }
      }
    }
  }

  /** A product row after `delta` units came back. */
  function Restock(p: Product, delta: nat): Product {
    if delta == 0 then p
    else
      var stock := p.stock + delta;
      p.(stock := stock, inventory := if stock > 0 && p.inventory == SoldOut then InStock else p.inventory)
  }

  function Restored(products: map<int, Product>, items: seq<Item>): (r: map<int, Product>)
    ensures r.Keys == products.Keys
    ensures forall id :: id in products ==> r[id].stock == products[id].stock + Units(items, id)
  {
    map id | id in products :: Restock(products[id], Units(items, id))
  }

  /** The dictionary of per-product sums the first loop builds. */
  method SumDeltas(items: seq<Item>) returns (deltas: map<int, nat>)
    ensures forall id :: id in deltas <==> Units(items, id) > 0
    ensures forall id :: id in deltas ==> deltas[id] == Units(items, id)
  {
    deltas := map[];
    for i := 0 to |items|
      invariant forall id :: id in deltas <==> Units(items[..i], id) > 0
      invariant forall id :: id in deltas ==> deltas[id] == Units(items[..i], id)
    {
      assert items[..i + 1][..i] == items[..i];
      var id := items[i].productId;
      var before: nat := if id in deltas then deltas[id] else 0;
      deltas := deltas[id := before + items[i].quantity];
    }
    assert items[..|items|] == items;
  }

  method RestoreFromOrderItems(db: Session, items: seq<Item>)
    modifies db
    ensures db.View() == old(db.View()).(products := Restored(old(db.products), items))
  {
    hide Units;
    var deltas := SumDeltas(items);
    var rows := db.products;
    var todo := deltas.Keys * rows.Keys;
    while todo != {}
      invariant db.products.Keys == rows.Keys
      invariant forall id :: id in rows ==>
        db.products[id] == if id in deltas && id !in todo then Restock(rows[id], deltas[id]) else rows[id]
      invariant db.View() == old(db.View()).(products := db.products)
      invariant todo <= deltas.Keys * rows.Keys
      decreases todo
    {
      var id := AnyOf(todo);
      todo := todo - {id};
      var delta := deltas[id];
      var stock := db.products[id].stock + delta;
      db.products := db.products[id := db.products[id].(stock := stock)];
      if db.products[id].stock > 0 && db.products[id].inventory == SoldOut {
        db.products := db.products[id := db.products[id].(inventory := InStock)];
      }
    }
    assert db.products == Restored(old(db.products), items);
  }

  /** The administrator's switch: the flag changes, the quantity does not. */
  function SetInventory(s: Store, id: int, inventory: Inventory): Option<Store> {
    if id !in s.products then None
    else Some(s.(products := s.products[id := s.products[id].(inventory := inventory)]))
  }

  method UpdateProductInventory(db: Session, id: int, inventory: Inventory) returns (found: bool)
    modifies db
    ensures found == SetInventory(old(db.View()), id, inventory).Some?
    ensures db.View() == if found then SetInventory(old(db.View()), id, inventory).value else old(db.View())
  {
    if id !in db.products {
      return false;
    }
    if db.products[id].inventory == inventory {
      assert db.products == db.products[id := db.products[id].(inventory := inventory)];
      return true;
    }
    db.products := db.products[id := db.products[id].(inventory := inventory)];
    return true;
  }

  /**
   After a restock a product has its units back; it is in stock if it was, or if the
   items held any of it, even when it had been switched off with stock left.
   */
  lemma RestockReopens(products: map<int, Product>, items: seq<Item>, id: int)
    requires id in products
    ensures var p, t := products[id], Restored(products, items)[id];
            && t.stock == p.stock + Units(items, id)
            && (t.inventory == SoldOut <==> p.inventory == SoldOut && Units(items, id) == 0)
            && t.active == p.active && t.basePrice == p.basePrice && t.groups == p.groups
  {
  }

  /** The switch sets the flag of one product and nothing else. */
  lemma SwitchSets(s: Store, id: int, inventory: Inventory)
    ensures SetInventory(s, id, inventory).Some? <==> id in s.products
    ensures id in s.products ==>
            var t := SetInventory(s, id, inventory).value;
            && t == s.(products := t.products) && t.products.Keys == s.products.Keys
            && t.products[id] == s.products[id].(inventory := inventory)
            && forall other :: other in s.products && other != id ==> t.products[other] == s.products[other]
  {
  }
}
