/** What checking out means to the customer: when it succeeds, and what the
    order, the shelf and the cart hold afterwards. */
module Receipts {
  import opened Wrappers
  import opened Entities
  import opened StockLines
  import opened Stock
  import opened Tables
  import opened CartRules
  import O = OrderRules
  import M = ShopMachine

  lemma {:induction false} LinesAreTheCart(s: Shop, n: nat, who: Identity, p: int)
    requires CartValid(s)
    ensures p in Ids(CartLines(s.cart, n, who)) <==> RowOf(s.cart, n, who, p).Some?
    ensures Qty(CartLines(s.cart, n, who), p)
            == match RowOf(s.cart, n, who, p) { case Some(id) => s.cart[id].quantity case None => 0 }
  {
    if n > 0 {
      LinesAreTheCart(s, n - 1, who, p);
      if n - 1 in s.cart && s.cart[n - 1].owner == who {
        var before, line := CartLines(s.cart, n - 1, who), Item(s.cart[n - 1].paintingId, s.cart[n - 1].quantity, 0);
        OneLineMore(before, line);
        var earlier := RowOf(s.cart, n - 1, who, p);
        assert earlier.Some? ==> !SameKey(s.cart[earlier.value], s.cart[n - 1]);
      }
    }
  }

  lemma OneLineMore(before: seq<Item>, line: Item)
    ensures Ids(before + [line]) == Ids(before) + {line.paintingId}
    ensures forall p :: Qty(before + [line], p) == Qty(before, p) + if line.paintingId == p then line.quantity else 0
  {
    assert (before + [line])[..|before|] == before;
    assert line in before + [line];
  }

  ghost predicate Covered(s: Shop, who: Identity) {
    forall p :: InCart(s, who, p).Some? ==>
      p in s.paintings && s.paintings[p].isAvailable && CopiesIn(s, who, p) <= s.paintings[p].amount
  }

  lemma LinesCovered(s: Shop, who: Identity)
    requires CartValid(s)
    ensures CanSellAll(s.paintings, CartLines(s.cart, s.nextCart, who)) <==> Covered(s, who)
    ensures CartLines(s.cart, s.nextCart, who) == [] <==> forall p :: InCart(s, who, p).None?
  {
    var lines := CartLines(s.cart, s.nextCart, who);
    CartLinesDistinct(s, s.nextCart, who);
    forall p ensures p in Ids(lines) <==> InCart(s, who, p).Some?
             ensures Qty(lines, p) == CopiesIn(s, who, p)
    {
      LinesAreTheCart(s, s.nextCart, who, p);
    }
    forall item | item in lines ensures Qty(lines, item.paintingId) == item.quantity && item.paintingId in Ids(lines) {
      QtyIn(lines, item);
    }
    if lines != [] {
      assert lines[0].paintingId in Ids(lines);
    }
    if CanSellAll(s.paintings, lines) {
      forall p | InCart(s, who, p).Some?
        ensures p in s.paintings && s.paintings[p].isAvailable && CopiesIn(s, who, p) <= s.paintings[p].amount
      {
        var item :| item in lines && item.paintingId == p;
        assert CanSell(s.paintings, item);
      }
    }
  }

  // Checking out works exactly when the form is complete, delivery could be
  // priced, and the cart holds something, all of it on sale in those numbers.
  lemma SucceedsExactlyWhen(s: Shop, who: Identity, req: O.CheckoutRequest)
    requires Valid(s)
    ensures O.Checkout(s, who, req).Ok?
            <==> && (who.Guest? ==> req.contactGiven) && req.addressConfirmed && req.quote.Some?
                 && (exists p :: InCart(s, who, p).Some?) && Covered(s, who)
  {
    hide InCart, CartLines, Covered, CanSellAll, StockOrder, Taken;
    var lines := CartLines(s.cart, s.nextCart, who);
    CartLinesDistinct(s, s.nextCart, who);
    LinesCovered(s, who);
    StockOrderSorts(lines);
    StockOrderKeepsDistinct(lines);
    MovesRearranged(s.paintings, StockOrder(lines), lines);
  }

  // And why not, when it does not: the first of these that is amiss.
  lemma RefusedBecause(s: Shop, who: Identity, req: O.CheckoutRequest)
    requires Valid(s) && O.Checkout(s, who, req).Err?
    ensures O.Checkout(s, who, req).error
            == if who.Guest? && !req.contactGiven then MissingContact
               else if !req.addressConfirmed then UnconfirmedAddress
               else if forall p :: InCart(s, who, p).None? then EmptyCart
               else if req.quote.None? then Unpriced
               else OutOfStock
    ensures M.Apply(s, M.Checkout(who, req)) == s
  {
    hide InCart, CartLines, Covered, CanSellAll, StockOrder, Taken;
    LinesCovered(s, who);
  }

  // Then the new order is the cart at the shelf's prices, the shelf has that
  // much less, and the cart is empty. No other order, row or cart changes.
  lemma BuysTheCart(s: Shop, who: Identity, req: O.CheckoutRequest)
    requires Valid(s) && O.Checkout(s, who, req).Ok?
    ensures var after := O.Checkout(s, who, req).value;
            && s.nextOrder !in s.orders && s.nextOrder in after.orders && after.orders - {s.nextOrder} == s.orders
            && IsReceipt(s, who, after.orders[s.nextOrder])
            && after.orders[s.nextOrder].deliveryCost == O.ToCents(req.quote.value.shippingCost)
            && after.orders[s.nextOrder].codFee == O.ToCents(req.quote.value.redeliveryCost)
    ensures var after := O.Checkout(s, who, req).value;
            after.paintings.Keys == s.paintings.Keys && forall p :: p in s.paintings ==> ShelfRow(s, after, who, p)
    ensures var after := O.Checkout(s, who, req).value;
            && (forall p :: InCart(after, who, p) == None)
            && forall other, p :: other != who ==> InCart(after, other, p) == InCart(s, other, p)
  {
    OrderIsTheCart(s, who, req);
    ShelfHasLess(s, who, req);
    CartIsEmptied(s, who, O.Checkout(s, who, req).value);
  }

  // The row of a painting after a checkout: in the cart, it has so many fewer
  // copies and is on sale while any are left; otherwise it stands.
  predicate ShelfRow(s: Shop, after: Shop, who: Identity, p: int)
    requires p in s.paintings && p in after.paintings
  {
    && after.paintings[p].amount == s.paintings[p].amount - CopiesIn(s, who, p)
    && after.paintings[p].price == s.paintings[p].price
    && after.paintings[p].isRepeatable == s.paintings[p].isRepeatable
    && after.paintings[p].isAvailable
       == if InCart(s, who, p).Some? then after.paintings[p].amount > 0 else s.paintings[p].isAvailable
  }

  ghost predicate IsReceipt(s: Shop, who: Identity, order: Order) {
    && order.owner == Some(who) && order.status == Pending && !order.isCommission && !order.isArchived
    && (forall p :: Qty(order.items, p) == CopiesIn(s, who, p))
    && (forall item :: item in order.items ==>
         item.paintingId in s.paintings && item.price == s.paintings[item.paintingId].price)
    && order.total == ItemsTotal(order.items) + order.deliveryCost + order.codFee
  }

  lemma OrderIsTheCart(s: Shop, who: Identity, req: O.CheckoutRequest)
    requires Valid(s) && O.Checkout(s, who, req).Ok?
    ensures var after := O.Checkout(s, who, req).value;
            && s.nextOrder !in s.orders && s.nextOrder in after.orders && after.orders - {s.nextOrder} == s.orders
            && IsReceipt(s, who, after.orders[s.nextOrder])
            && after.orders[s.nextOrder].deliveryCost == O.ToCents(req.quote.value.shippingCost)
            && after.orders[s.nextOrder].codFee == O.ToCents(req.quote.value.redeliveryCost)
  {
    hide StockOrder, Taken, CanSellAll, CartLines, InCart, RowOf, Qty, Distinct, ItemsTotal;
    var lines := CartLines(s.cart, s.nextCart, who);
    var plan := StockOrder(lines);
    var order := O.Checkout(s, who, req).value.orders[s.nextOrder];
    CartLinesDistinct(s, s.nextCart, who);
    StockOrderSorts(lines);
    StockOrderKeepsDistinct(lines);
    O.SellableIdsExist(s.paintings, plan);
    O.PricedKeepsLines(s.paintings, plan);
    forall p ensures Qty(order.items, p) == CopiesIn(s, who, p) {
      QtyRearranged(plan, lines, p);
      CopiesAreLines(s, who, p);
    }
    PricesAreTheShelf(s.paintings, plan);
  }

  lemma CopiesAreLines(s: Shop, who: Identity, p: int)
    requires CartValid(s)
    ensures CopiesIn(s, who, p) == Qty(CartLines(s.cart, s.nextCart, who), p)
    ensures InCart(s, who, p).Some? <==> p in Ids(CartLines(s.cart, s.nextCart, who))
  {
    LinesAreTheCart(s, s.nextCart, who, p);
  }

  lemma PricesAreTheShelf(ps: Paintings, plan: seq<Item>)
    requires Ids(plan) <= ps.Keys
    ensures forall item :: item in O.Priced(ps, plan) ==>
              item.paintingId in ps && item.price == ps[item.paintingId].price
  {
    var items := O.Priced(ps, plan);
    forall i | 0 <= i < |items| ensures items[i].paintingId in ps && items[i].price == ps[items[i].paintingId].price {
      assert plan[i] in plan && plan[i].paintingId in Ids(plan);
    }
  }

  lemma ShelfHasLess(s: Shop, who: Identity, req: O.CheckoutRequest)
    requires Valid(s) && O.Checkout(s, who, req).Ok?
    ensures var after := O.Checkout(s, who, req).value;
            after.paintings.Keys == s.paintings.Keys && forall p :: p in s.paintings ==> ShelfRow(s, after, who, p)
  {
    hide StockOrder, CartLines, InCart, Distinct, ItemsTotal, O.Priced;
    var lines := CartLines(s.cart, s.nextCart, who);
    CartLinesDistinct(s, s.nextCart, who);
    StockOrderSorts(lines);
    SameItems(StockOrder(lines), lines);
    assert CanSellAll(s.paintings, lines);
    forall p | p in s.paintings ensures ShelfRow(s, O.Checkout(s, who, req).value, who, p) {
      TakenIsExact(s.paintings, lines, p);
      CopiesAreLines(s, who, p);
      OnSaleWhileAnyLeft(s.paintings, lines, p);
    }
  }

  lemma OnSaleWhileAnyLeft(ps: Paintings, lines: seq<Item>, p: int)
    requires CanSellAll(ps, lines) && p in ps
    ensures Taken(ps, lines)[p].isAvailable
            == if p in Ids(lines) then Taken(ps, lines)[p].amount > 0 else ps[p].isAvailable
    ensures Taken(ps, lines)[p].isRepeatable == ps[p].isRepeatable
  {
    if p in Ids(lines) {
      var item :| item in lines && item.paintingId == p;
      assert CanSell(ps, item);
    }
  }

  lemma CartIsEmptied(s: Shop, who: Identity, after: Shop)
    requires CartValid(s) && after.cart == WithoutCartOf(s.cart, who) && after.nextCart == s.nextCart
    requires after.paintings.Keys == s.paintings.Keys
    ensures forall p :: InCart(after, who, p) == None
    ensures forall other, p :: other != who ==> InCart(after, other, p) == InCart(s, other, p)
  {
    forall other, p | other != who ensures InCart(after, other, p) == InCart(s, other, p) {
      SameLine(s, after, other, p);
    }
  }
}
