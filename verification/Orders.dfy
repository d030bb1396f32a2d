/** Checkout, cancelling, status changes and the rest of an order's life:
    first what each request does to the tables, then the service that does it. */
module OrderRules {
  import opened Wrappers
  import opened Entities
  import opened StockLines
  import opened Stock
  import opened Tables

  // What the courier quotes, in hryvnias.
  datatype Quote = Quote(shippingCost: real, redeliveryCost: real)

  // A checkout request after the form checks and the courier lookups:
  // `contactGiven` - a guest left a name, a phone and an email;
  // `addressConfirmed` - city and warehouse were picked and exist;
  // `quote` - None when the shipment could not be priced.
  datatype CheckoutRequest = CheckoutRequest(contactGiven: bool, addressConfirmed: bool, quote: Option<Quote>)

  // Half a cent rounds up, as Math.round does.
  function ToCents(value: real): int {
    (value * 100.0 + 0.5).Floor
  }

  // A DECIMAL(10,2) value loses nothing, and nothing moves by more than half a cent.
  lemma ToCentsIsNearest(value: real, cents: int)
    ensures value == cents as real / 100.0 ==> ToCents(value) == cents
    ensures -0.5 < ToCents(value) as real - value * 100.0 <= 0.5
  {
  }

  // The lines with the prices the locked rows carry.
  function Priced(ps: Paintings, items: seq<Item>): (r: seq<Item>)
    requires Ids(items) <= ps.Keys
  {
    seq(|items|, i requires 0 <= i < |items| =>
      assert items[i].paintingId in Ids(items);
      items[i].(price := ps[items[i].paintingId].price))
  }

  lemma PricedKeepsLines(ps: Paintings, items: seq<Item>)
    requires Ids(items) <= ps.Keys
    ensures Ids(Priced(ps, items)) == Ids(items)
    ensures Distinct(items) ==> Distinct(Priced(ps, items))
    ensures forall p :: Qty(Priced(ps, items), p) == Qty(items, p)
  {
    var priced := Priced(ps, items);
    forall p ensures Qty(priced, p) == Qty(items, p) {
      QtyIgnoresPrice(priced, items, p);
    }
    assert forall i :: 0 <= i < |items| ==> items[i].paintingId == priced[i].paintingId && priced[i] in priced;
    assert forall item :: item in items ==> item.paintingId in Ids(priced);
  }

  lemma PricedOneMore(ps: Paintings, items: seq<Item>, n: nat)
    requires n < |items| && Ids(items[..n]) <= ps.Keys && items[n].paintingId in ps
    ensures Ids(items[..n + 1]) <= ps.Keys
    ensures Priced(ps, items[..n + 1]) == Priced(ps, items[..n]) + [items[n].(price := ps[items[n].paintingId].price)]
    ensures ItemsTotal(Priced(ps, items[..n + 1]))
            == ItemsTotal(Priced(ps, items[..n])) + ps[items[n].paintingId].price * items[n].quantity
  {
  }

  lemma SellableIdsExist(ps: Paintings, items: seq<Item>)
    requires CanSellAll(ps, items) || CanTakeBackAll(ps, items)
    ensures Ids(items) <= ps.Keys
  {
  }

  lemma NothingYet(ps: Paintings, lines: seq<Item>)
    ensures Ids(lines[..0]) <= ps.Keys
    ensures Taken(ps, lines[..0]) == ps && Restored(ps, lines[..0]) == ps
    ensures Priced(ps, lines[..0]) == [] && ItemsTotal([]) == 0
  {
  }

  // One round of the checkout loop, against everything done so far.
  lemma CheckoutRound(ps: Paintings, lines: seq<Item>, i: nat)
    requires Distinct(lines) && i < |lines|
    requires Ids(lines[..i]) <= ps.Keys
    ensures Taken(ps, lines[..i]).Keys == ps.Keys
    ensures lines[i].paintingId in ps ==>
              && Taken(ps, lines[..i])[lines[i].paintingId] == ps[lines[i].paintingId]
              && Taken(ps, lines[..i + 1])
                 == Taken(ps, lines[..i])[lines[i].paintingId := Sell(ps[lines[i].paintingId], lines[i].quantity)]
              && Ids(lines[..i + 1]) <= ps.Keys
              && Priced(ps, lines[..i + 1])
                 == Priced(ps, lines[..i]) + [lines[i].(price := ps[lines[i].paintingId].price)]
              && ItemsTotal(Priced(ps, lines[..i + 1]))
                 == ItemsTotal(Priced(ps, lines[..i])) + ps[lines[i].paintingId].price * lines[i].quantity
  {
    if lines[i].paintingId in ps {
      TakenOneMore(ps, lines, i);
      PricedOneMore(ps, lines, i);
    }
  }

  // One round of un-cancelling's second pass.
  lemma CheckedLine(ps: Paintings, items: seq<Item>, i: nat)
    requires Distinct(items) && i < |items| && CanTakeBackAll(ps, items)
    ensures items[i] in items && items[i].paintingId in ps
    ensures Taken(ps, items[..i + 1])
            == Taken(ps, items[..i])[items[i].paintingId := Sell(ps[items[i].paintingId], items[i].quantity)]
  {
    assert CanTakeBack(ps, items[i]);
    TakenOneMore(ps, items, i);
  }

  // One round of the restoring loop.
  lemma RestoreRound(ps: Paintings, lines: seq<Item>, i: nat)
    requires Distinct(lines) && i < |lines|
    ensures Restored(ps, lines[..i]).Keys == ps.Keys
    ensures lines[i].paintingId in ps ==>
              && Restored(ps, lines[..i])[lines[i].paintingId] == ps[lines[i].paintingId]
              && Restored(ps, lines[..i + 1])
                 == Restored(ps, lines[..i])[lines[i].paintingId := Restock(ps[lines[i].paintingId], lines[i].quantity)]
    ensures lines[i].paintingId !in ps ==> Restored(ps, lines[..i + 1]) == Restored(ps, lines[..i])
  {
    RestoredOneMore(ps, lines, i);
  }

  // ---- the transactions, as they stand once their order or cart was read ----

  function CheckoutTransaction(s: Shop, who: Identity, lines: seq<Item>, delivery: int, cod: int)
    : Result<Shop, Rejection>
  {
    var plan := StockOrder(lines);
    if !CanSellAll(s.paintings, plan) then
      Err(OutOfStock)
    else
      SellableIdsExist(s.paintings, plan);
      var items := Priced(s.paintings, plan);
      Ok(s.(paintings := Taken(s.paintings, lines),
            orders := s.orders[s.nextOrder :=
              Order(Some(who), items, Pending, false, false, None, delivery, cod, ItemsTotal(items) + delivery + cod)],
            nextOrder := s.nextOrder + 1,
            cart := WithoutCartOf(s.cart, who)))
  }

  function CancelTransaction(s: Shop, id: nat, order: Order): Shop {
    s.(paintings := if order.isCommission then s.paintings else Restored(s.paintings, order.items),
       orders := s.orders[id := order.(status := Cancelled)])
  }

  function UncancelTransaction(s: Shop, id: nat, order: Order, status: Status): Result<Shop, Rejection> {
    if order.isCommission then
      Ok(s.(orders := s.orders[id := order.(status := status)]))
    else if !CanTakeBackAll(s.paintings, order.items) then
      Err(OutOfStock)
    else
      Ok(s.(paintings := Taken(s.paintings, order.items), orders := s.orders[id := order.(status := status)]))
  }

  // ---- the requests ----

  function Checkout(s: Shop, who: Identity, req: CheckoutRequest): Result<Shop, Rejection> {
    var lines := CartLines(s.cart, s.nextCart, who);
    if who.Guest? && !req.contactGiven then Err(MissingContact)
    else if !req.addressConfirmed then Err(UnconfirmedAddress)
    else if lines == [] then Err(EmptyCart)
    else if req.quote.None? then Err(Unpriced)
    else CheckoutTransaction(s, who, lines, ToCents(req.quote.value.shippingCost),
                             ToCents(req.quote.value.redeliveryCost))
  }

  function Cancel(s: Shop, who: Identity, id: nat): Result<Shop, Rejection> {
    if id !in s.orders || s.orders[id].owner != Some(who) then Err(NotFound)
    else if s.orders[id].status == Cancelled then Err(AlreadyCancelled)
    else if s.orders[id].status == Completed then Err(AlreadyCompleted)
    else if s.orders[id].status == Shipped then Err(AlreadyShipped)
    else Ok(CancelTransaction(s, id, s.orders[id]))
  }

  // `waybill` is the trimmed tracking number; None when it was blank.
  function UpdateStatus(s: Shop, id: nat, status: Status, waybill: Option<string>): Result<Shop, Rejection> {
    if id !in s.orders then Err(NotFound)
    else if s.orders[id].status == status then Ok(s)
    else if status == Shipped && waybill.None? then Err(NoWaybill)
    else
      var order := if status == Shipped then s.orders[id].(trackingNumber := waybill) else s.orders[id];
      if status == Cancelled then Ok(CancelTransaction(s, id, order))
      else if order.status == Cancelled then UncancelTransaction(s, id, order, status)
      else Ok(s.(orders := s.orders[id := order.(status := status)]))
  }

  function CreateCommission(s: Shop, who: Identity, p: int, offered: Option<int>): Result<Shop, Rejection> {
    if p !in s.paintings then Err(NotFound)
    else if !s.paintings[p].isRepeatable then Err(NotRepeatable)
    else
      var original := s.paintings[p].price;
      var offer := if offered.Some? then offered.value else original;
      if offer < original then Err(OfferTooLow)
      else Ok(s.(orders := s.orders[s.nextOrder :=
                   Order(Some(who), [Item(p, 1, original)], Pending, true, false, None, 0, 0, offer)],
                 nextOrder := s.nextOrder + 1))
  }

  function Reowned(orders: map<nat, Order>, was: Identity, now: Option<Identity>): map<nat, Order> {
    map id | id in orders :: if orders[id].owner == Some(was) then orders[id].(owner := now) else orders[id]
  }

  function ClaimGuestOrders(s: Shop, user: int, token: string): Shop {
    s.(orders := Reowned(s.orders, Guest(token), Some(User(user))))
  }

  function RemoveOrder(s: Shop, id: nat): Result<Shop, Rejection> {
    if id !in s.orders then Err(NotFound)
    else if s.orders[id].status != Cancelled then Err(NotCancelled)
    else Ok(s.(orders := s.orders - {id}))
  }

  function ArchiveOrder(s: Shop, id: nat): Result<Shop, Rejection> {
    if id !in s.orders then Err(NotFound)
    else if s.orders[id].status != Completed then Err(NotCompleted)
    else Ok(s.(orders := s.orders[id := s.orders[id].(isArchived := true)]))
  }
}

module Orders {
  import opened Wrappers
  import opened Entities
  import opened StockLines
  import opened Stock
  import opened Tables
  import opened OrderRules

  class OrdersService {
    const db: Database

    constructor (db: Database)
      ensures this.db == db
    {
      this.db := db;
    }

    method Checkout(who: Identity, req: CheckoutRequest) returns (error: Option<Rejection>)
      requires Valid(db.shop)
      modifies db
      ensures Follows(OrderRules.Checkout(old(db.shop), who, req), old(db.shop), db.shop, error)
    {
      hide Taken, Restored, Ids, Distinct, Qty, Priced, CanSellAll, StockOrder;
      if who.Guest? && !req.contactGiven {
        return Some(MissingContact);
      }
      if !req.addressConfirmed {
        return Some(UnconfirmedAddress);
      }
      var cartItems := CartLines(db.shop.cart, db.shop.nextCart, who);
      CartLinesDistinct(db.shop, db.shop.nextCart, who);
      if cartItems == [] {
        return Some(EmptyCart);
      }
      if req.quote.None? {
        return Some(Unpriced);
      }
      var delivery, cod := ToCents(req.quote.value.shippingCost), ToCents(req.quote.value.redeliveryCost);
      var lines := StockOrder(cartItems);
      StockOrderSorts(cartItems);
      StockOrderKeepsDistinct(cartItems);
      var taken, orderItems, goods := TakeLines(db.shop.paintings, lines);
      MovesRearranged(db.shop.paintings, lines, cartItems);
      if taken.None? {
        return Some(OutOfStock);
      }
      SellableIdsExist(db.shop.paintings, lines);
      var order := Order(Some(who), orderItems, Pending, false, false, None, delivery, cod, goods + delivery + cod);
      db.shop := db.shop.(paintings := taken.value,
                          orders := db.shop.orders[db.shop.nextOrder := order],
                          nextOrder := db.shop.nextOrder + 1,
                          cart := WithoutCartOf(db.shop.cart, who));
      return None;
    }

    // The loop of the checkout transaction, on the transaction's own view of
    // the painting rows: lock, check, price, decrement, save. A row that
    // fails its check ends it, and nothing of what it did is kept.
    method TakeLines(paintings: Paintings, lines: seq<Item>)
      returns (taken: Option<Paintings>, orderItems: seq<Item>, totalCents: int)
      requires Distinct(lines)
      ensures taken.Some? <==> CanSellAll(paintings, lines)
      ensures taken.Some? ==> taken.value == Taken(paintings, lines)
      ensures taken.Some? ==> Ids(lines) <= paintings.Keys && orderItems == Priced(paintings, lines)
      ensures taken.Some? ==> totalCents == ItemsTotal(Priced(paintings, lines))
    {
      hide Taken, Ids, Priced, Distinct, Qty, ItemsTotal;
      var rows := paintings;
      orderItems, totalCents := [], 0;
      NothingYet(paintings, lines);
      for i := 0 to |lines|
        invariant Ids(lines[..i]) <= paintings.Keys
        invariant forall k :: 0 <= k < i ==> CanSell(paintings, lines[k])
        invariant rows == Taken(paintings, lines[..i])
        invariant orderItems == Priced(paintings, lines[..i])
        invariant totalCents == ItemsTotal(orderItems)
      {
        var line := lines[i];
        CheckoutRound(paintings, lines, i);
        if line.paintingId !in rows || !rows[line.paintingId].isAvailable
           || rows[line.paintingId].amount < line.quantity {
          assert !CanSell(paintings, line);
          return None, [], 0;
        }
        var painting := rows[line.paintingId];
        orderItems := orderItems + [line.(price := painting.price)];
        totalCents := totalCents + painting.price * line.quantity;
        painting := painting.(amount := painting.amount - line.quantity);
        if painting.amount <= 0 {
          painting := painting.(amount := 0, isAvailable := false);
        }
        rows := rows[line.paintingId := painting];
      }
      assert lines[..|lines|] == lines;
      taken := Some(rows);
    }

    // Puts a cancelled order's quantities back on the shelf. A painting that
    // is no longer there is passed over.
    method RestoreStock(paintings: Paintings, order: Order) returns (rows: Paintings)
      requires Distinct(order.items)
      ensures rows == if order.isCommission then paintings else Restored(paintings, order.items)
    {
      hide Taken, Restored, Ids, Distinct, Qty, StockOrder;
      rows := paintings;
      if order.isCommission {
        return;
      }
      var lines := StockOrder(order.items);
      StockOrderSorts(order.items);
      StockOrderKeepsDistinct(order.items);
      NothingYet(paintings, lines);
      for i := 0 to |lines|
        invariant rows == Restored(paintings, lines[..i])
      {
        RestoreRound(paintings, lines, i);
        var id := lines[i].paintingId;
        if id in rows {
          rows := rows[id := rows[id].(amount := rows[id].amount + lines[i].quantity, isAvailable := true)];
        }
      }
      assert lines[..|lines|] == lines;
      MovesRearranged(paintings, lines, order.items);
    }

    // Un-cancelling: every row is locked and checked before any is written.
    method TakeStockBack(paintings: Paintings, order: Order) returns (taken: Option<Paintings>)
      requires Distinct(order.items)
      ensures order.isCommission ==> taken == Some(paintings)
      ensures !order.isCommission ==>
                taken == if CanTakeBackAll(paintings, order.items) then Some(Taken(paintings, order.items)) else None
    {
      if order.isCommission {
        return Some(paintings);
      }
      var locked := LockAndCheck(paintings, order.items);
      if locked.None? {
        return None;
      }
      hide Taken, Restored, Ids, Distinct, Qty;
      NothingYet(paintings, order.items);
      var rows := paintings;
      for i := 0 to |order.items|
        invariant rows == Taken(paintings, order.items[..i])
      {
        var item := order.items[i];
        CheckedLine(paintings, order.items, i);
        var painting := locked.value[item.paintingId];
        painting := painting.(amount := painting.amount - item.quantity);
        if painting.amount <= 0 {
          painting := painting.(amount := 0, isAvailable := false);
        }
        rows := rows[item.paintingId := painting];
      }
      assert order.items[..|order.items|] == order.items;
      taken := Some(rows);
    }

    // The first pass: every row locked, in id order, and checked.
    method LockAndCheck(paintings: Paintings, items: seq<Item>) returns (locked: Option<Paintings>)
      ensures locked.Some? <==> CanTakeBackAll(paintings, items)
      ensures locked.Some? ==> forall item :: item in items ==>
                item.paintingId in locked.value && locked.value[item.paintingId] == paintings[item.paintingId]
    {
      var lines := StockOrder(items);
      StockOrderSorts(items);
      SameItems(lines, items);
      var rows: Paintings := map[];
      for i := 0 to |lines|
        invariant forall k :: 0 <= k < i ==> CanTakeBack(paintings, lines[k]) && lines[k].paintingId in rows
        invariant forall p :: p in rows ==> p in paintings && rows[p] == paintings[p]
      {
        if lines[i].paintingId !in paintings || paintings[lines[i].paintingId].amount < lines[i].quantity {
          assert lines[i] in items;
          return None;
        }
        rows := rows[lines[i].paintingId := paintings[lines[i].paintingId]];
      }
      locked := Some(rows);
    }

    method Cancel(who: Identity, id: nat) returns (error: Option<Rejection>)
      requires Valid(db.shop)
      modifies db
      ensures Follows(OrderRules.Cancel(old(db.shop), who, id), old(db.shop), db.shop, error)
    {
      if id !in db.shop.orders || db.shop.orders[id].owner != Some(who) {
        return Some(NotFound);
      }
      var order := db.shop.orders[id];
      if order.status == Cancelled {
        return Some(AlreadyCancelled);
      }
      if order.status == Completed {
        return Some(AlreadyCompleted);
      }
      if order.status == Shipped {
        return Some(AlreadyShipped);
      }
      var rows := RestoreStock(db.shop.paintings, order);
      db.shop := db.shop.(paintings := rows, orders := db.shop.orders[id := order.(status := Cancelled)]);
      return None;
    }

    method UpdateStatusAdmin(id: nat, status: Status, waybill: Option<string>) returns (error: Option<Rejection>)
      requires Valid(db.shop)
      modifies db
      ensures Follows(UpdateStatus(old(db.shop), id, status, waybill), old(db.shop), db.shop, error)
    {
      if id !in db.shop.orders {
        return Some(NotFound);
      }
      var order := db.shop.orders[id];
      if order.status == status {
        return None;
      }
      if status == Shipped {
        if waybill.None? {
          return Some(NoWaybill);
        }
        order := order.(trackingNumber := waybill);
      }
      var wasCancelled, willBeCancelled := order.status == Cancelled, status == Cancelled;
      if !wasCancelled && willBeCancelled {
        var rows := RestoreStock(db.shop.paintings, order);
        db.shop := db.shop.(paintings := rows, orders := db.shop.orders[id := order.(status := status)]);
        return None;
      }
      if wasCancelled && !willBeCancelled {
        var taken := TakeStockBack(db.shop.paintings, order);
        if taken.None? {
          return Some(OutOfStock);
        }
        db.shop := db.shop.(paintings := taken.value, orders := db.shop.orders[id := order.(status := status)]);
        return None;
      }
      db.shop := db.shop.(orders := db.shop.orders[id := order.(status := status)]);
      return None;
    }

    // Asks for a repeat of a painting; an offer left out is the asking price.
    method CreateCommission(who: Identity, paintingId: int, offered: Option<int>) returns (error: Option<Rejection>)
      modifies db
      ensures Follows(OrderRules.CreateCommission(old(db.shop), who, paintingId, offered), old(db.shop), db.shop, error)
      ensures db.shop.paintings == old(db.shop).paintings
      ensures error.None? ==> var order := db.shop.orders[old(db.shop).nextOrder];
                              !HoldsStock(order) && MoneyAddsUp(order)
    {
      if paintingId !in db.shop.paintings {
        return Some(NotFound);
      }
      var painting := db.shop.paintings[paintingId];
      if !painting.isRepeatable {
        return Some(NotRepeatable);
      }
      var offeredPrice := if offered.Some? then offered.value else painting.price;
      if offeredPrice < painting.price {
        return Some(OfferTooLow);
      }
      var order := Order(Some(who), [Item(paintingId, 1, painting.price)], Pending, true, false, None, 0, 0,
                         offeredPrice);
      db.shop := db.shop.(orders := db.shop.orders[db.shop.nextOrder := order], nextOrder := db.shop.nextOrder + 1);
      return None;
    }

    method ClaimGuestOrders(userId: int, guestToken: string) returns (claimed: nat)
      modifies db
      ensures db.shop == OrderRules.ClaimGuestOrders(old(db.shop), userId, guestToken)
      ensures claimed
              == |set id | id in old(db.shop).orders && old(db.shop).orders[id].owner == Some(Guest(guestToken))|
    {
      claimed := |set id | id in db.shop.orders && db.shop.orders[id].owner == Some(Guest(guestToken))|;
      db.shop := db.shop.(orders := Reowned(db.shop.orders, Guest(guestToken), Some(User(userId))));
    }

    method RemoveAdmin(id: nat) returns (error: Option<Rejection>)
      modifies db
      ensures Follows(RemoveOrder(old(db.shop), id), old(db.shop), db.shop, error)
      ensures forall n: nat, p: int :: HeldByAll(db.shop.orders, n, p) == HeldByAll(old(db.shop).orders, n, p)
    {
      if id !in db.shop.orders {
        return Some(NotFound);
      }
      if db.shop.orders[id].status != Cancelled {
        return Some(NotCancelled);
      }
      SameHeld(db.shop.orders, db.shop.orders - {id});
      db.shop := db.shop.(orders := db.shop.orders - {id});
      return None;
    }

    method ArchiveAdmin(id: nat) returns (error: Option<Rejection>)
      modifies db
      ensures Follows(ArchiveOrder(old(db.shop), id), old(db.shop), db.shop, error)
      ensures forall n: nat, p: int :: HeldByAll(db.shop.orders, n, p) == HeldByAll(old(db.shop).orders, n, p)
    {
      if id !in db.shop.orders {
        return Some(NotFound);
      }
      if db.shop.orders[id].status != Completed {
        return Some(NotCompleted);
      }
      var archived := db.shop.orders[id := db.shop.orders[id].(isArchived := true)];
      SameHeld(db.shop.orders, archived);
      db.shop := db.shop.(orders := archived);
      return None;
    }
  }

  lemma SameHeld(before: map<nat, Order>, after: map<nat, Order>)
    requires forall k: nat, p: int :: HeldBy(after, k, p) == HeldBy(before, k, p)
    ensures forall n: nat, p: int :: HeldByAll(after, n, p) == HeldByAll(before, n, p)
  {
    forall n: nat, p: int ensures HeldByAll(after, n, p) == HeldByAll(before, n, p) {
      HeldUnchanged(before, after, n, p);
    }
  }
}
