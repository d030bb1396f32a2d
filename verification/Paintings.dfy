/** The catalogue's own writes: listing, editing and withdrawing a painting. */
module PaintingRules {
  import opened Wrappers
  import opened Entities
  import opened StockLines

  // A PATCH: fields left out are None.
  datatype Patch = Patch(price: Option<int>, amount: Option<int>, isAvailable: Option<bool>, isRepeatable: Option<bool>)

  function Or<T>(value: Option<T>, default: T): T {
    match value
    case Some(v) => v
    case None => default
  }

  // Nothing with no copies is for sale; otherwise what was asked, or true.
  function ReconcileAvailability(amount: int, requested: Option<bool>): bool {
    if amount <= 0 then false else Or(requested, true)
  }

  function CreatePainting(s: Shop, price: int, amount: Option<int>, isAvailable: Option<bool>,
                          isRepeatable: bool): Shop {
    var copies := Or(amount, 1);
    s.(paintings := s.paintings[s.nextPainting :=
         Painting(price, copies, ReconcileAvailability(copies, isAvailable), isRepeatable)],
       nextPainting := s.nextPainting + 1)
  }

  function Patched(painting: Painting, patch: Patch): Painting {
    var row := Painting(Or(patch.price, painting.price), Or(patch.amount, painting.amount),
                             Or(patch.isAvailable, painting.isAvailable),
                             Or(patch.isRepeatable, painting.isRepeatable));
    row.(isAvailable := ReconcileAvailability(row.amount, Some(row.isAvailable)))
  }

  function UpdatePainting(s: Shop, p: int, patch: Patch): Result<Shop, Rejection> {
    if p !in s.paintings then Err(NotFound)
    else Ok(s.(paintings := s.paintings[p := Patched(s.paintings[p], patch)]))
  }

  predicate Referenced(orders: map<nat, Order>, p: int) {
    exists id :: id in orders && p in Ids(orders[id].items)
  }

  // An order item's foreign key keeps the row; cart rows go with it.
  function RemovePainting(s: Shop, p: int): Result<Shop, Rejection> {
    if p !in s.paintings then Err(NotFound)
    else if Referenced(s.orders, p) then Err(StillReferenced)
    else Ok(s.(paintings := s.paintings - {p},
               cart := map id | id in s.cart && s.cart[id].paintingId != p :: s.cart[id]))
  }

  // A new work: one copy unless another number is given, on sale unless it has
  // none or is held back; every other work stands.
  lemma CreatedIs(s: Shop, price: int, amount: Option<int>, isAvailable: Option<bool>, isRepeatable: bool)
    ensures var after := CreatePainting(s, price, amount, isAvailable, isRepeatable);
            var copies := match amount { case Some(n) => n case None => 1 };
            && s.nextPainting in after.paintings && after.nextPainting == s.nextPainting + 1
            && after.paintings[s.nextPainting].price == price && after.paintings[s.nextPainting].amount == copies
            && after.paintings[s.nextPainting].isRepeatable == isRepeatable
            && (after.paintings[s.nextPainting].isAvailable <==> copies > 0 && isAvailable != Some(false))
            && (forall p :: p in s.paintings && p != s.nextPainting ==>
                 p in after.paintings && after.paintings[p] == s.paintings[p])
            && after.cart == s.cart && after.orders == s.orders
  {
  }

  // A PATCH stores what it names and keeps what it does not; the work is on
  // sale after it exactly with a copy to sell, if the request, or failing that
  // the row, had it so. Every other work stands.
  lemma UpdatedIs(s: Shop, p: int, patch: Patch)
    ensures UpdatePainting(s, p, patch).Ok? <==> p in s.paintings
    ensures p in s.paintings ==>
              var after, row := UpdatePainting(s, p, patch).value, s.paintings[p];
              && after.paintings.Keys == s.paintings.Keys && after.cart == s.cart && after.orders == s.orders
              && after.paintings[p].price == (if patch.price.Some? then patch.price.value else row.price)
              && after.paintings[p].amount == (if patch.amount.Some? then patch.amount.value else row.amount)
              && after.paintings[p].isRepeatable
                 == (if patch.isRepeatable.Some? then patch.isRepeatable.value else row.isRepeatable)
              && (after.paintings[p].isAvailable <==>
                    && after.paintings[p].amount > 0
                    && (if patch.isAvailable.Some? then patch.isAvailable.value else row.isAvailable))
              && forall q :: q in s.paintings && q != p ==> after.paintings[q] == s.paintings[q]
  {
  }

  // A work can be withdrawn exactly when no order names it.
  lemma RemovedIs(s: Shop, p: int)
    ensures RemovePainting(s, p).Ok?
            <==> p in s.paintings && forall id :: id in s.orders ==> p !in Ids(s.orders[id].items)
    ensures RemovePainting(s, p).Ok? ==>
              var after := RemovePainting(s, p).value;
              && after.paintings == s.paintings - {p} && after.orders == s.orders
              && forall id :: id in after.cart <==> id in s.cart && s.cart[id].paintingId != p
    ensures RemovePainting(s, p).Ok? ==>
              forall id :: id in RemovePainting(s, p).value.cart ==> RemovePainting(s, p).value.cart[id] == s.cart[id]
  {
  }

  // The comment beside `update` says raising the amount of a sold-out work is
  // enough to put it back on sale. It is not: a PATCH that says nothing about
  // availability keeps whatever the row said, and a sold-out row says no.
  lemma RestockingAlone(painting: Painting, patch: Patch)
    requires patch.amount.Some? && patch.amount.value > 0
    ensures Patched(painting, patch).isAvailable
            <==> patch.isAvailable == Some(true) || (patch.isAvailable.None? && painting.isAvailable)
  {
  }

  // Five copies for a work that had sold out, and nothing said about its sale.
  lemma RestockedStaysOff(painting: Painting)
    requires !painting.isAvailable
    ensures Patched(painting, Patch(None, Some(5), None, None)) == painting.(amount := 5)
  {
  }
}

module Paintings {
  import opened Wrappers
  import opened Entities
  import opened StockLines
  import opened Tables
  import opened PaintingRules

  class PaintingsService {
    const db: Database

    constructor (db: Database)
      ensures this.db == db
    {
      this.db := db;
    }

    method Create(price: int, amount: Option<int>, isAvailable: Option<bool>, isRepeatable: bool)
      modifies db
      ensures db.shop == CreatePainting(old(db.shop), price, amount, isAvailable, isRepeatable)
      ensures var painting := db.shop.paintings[old(db.shop).nextPainting];
              painting.isAvailable ==> painting.amount > 0
    {
      var copies := Or(amount, 1);
      var painting := Painting(price, copies, ReconcileAvailability(copies, isAvailable), isRepeatable);
      db.shop := db.shop.(paintings := db.shop.paintings[db.shop.nextPainting := painting],
                          nextPainting := db.shop.nextPainting + 1);
    }

    method Update(id: int, patch: Patch) returns (error: Option<Rejection>)
      modifies db
      ensures Follows(UpdatePainting(old(db.shop), id, patch), old(db.shop), db.shop, error)
      ensures error.None? ==>
                id in db.shop.paintings && (db.shop.paintings[id].isAvailable ==> db.shop.paintings[id].amount > 0)
    {
      if id !in db.shop.paintings {
        return Some(NotFound);
      }
      var painting := db.shop.paintings[id];
      if patch.price.Some? {
        painting := painting.(price := patch.price.value);
      }
      if patch.amount.Some? {
        painting := painting.(amount := patch.amount.value);
      }
      if patch.isRepeatable.Some? {
        painting := painting.(isRepeatable := patch.isRepeatable.value);
      }
      painting := painting.(isAvailable :=
        ReconcileAvailability(painting.amount, Some(Or(patch.isAvailable, painting.isAvailable))));
      db.shop := db.shop.(paintings := db.shop.paintings[id := painting]);
      return None;
    }

    method Remove(id: int) returns (error: Option<Rejection>)
      modifies db
      ensures Follows(RemovePainting(old(db.shop), id), old(db.shop), db.shop, error)
      // Nothing is left that names it.
      ensures error.None? ==> (forall k :: k in db.shop.cart ==> db.shop.cart[k].paintingId != id)
                              && (forall k :: k in db.shop.orders ==> id !in Ids(db.shop.orders[k].items))
    {
      if id !in db.shop.paintings {
        return Some(NotFound);
      }
      if Referenced(db.shop.orders, id) {
        return Some(StillReferenced);
      }
      db.shop := db.shop.(paintings := db.shop.paintings - {id},
                          cart := map k | k in db.shop.cart && db.shop.cart[k].paintingId != id :: db.shop.cart[k]);
      return None;
    }
  }
}
