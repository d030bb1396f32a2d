/** The answers of the order requests: when each is accepted, why it is turned
    away, and what it leaves, told column by column. */
module OrderRequests {
  import opened Wrappers
  import opened Entities
  import opened StockLines
  import opened Stock
  import opened Tables
  import O = OrderRules
  import M = ShopMachine

  predicate Open(order: Order) {
    order.status == Pending || order.status == Confirmed
  }

  // Everything but the order rows stands.
  predicate OnlyOrders(s: Shop, after: Shop) {
    after.paintings == s.paintings && after.nextPainting == s.nextPainting
    && after.cart == s.cart && after.nextCart == s.nextCart
  }

  // Every order row but this one stands.
  predicate OnlyOrder(s: Shop, after: Shop, id: nat) {
    && id in after.orders && after.nextOrder == s.nextOrder && after.cart == s.cart && after.nextCart == s.nextCart
    && after.orders.Keys == s.orders.Keys + {id} && after.nextPainting == s.nextPainting
    && forall k :: k in s.orders && k != id ==> after.orders[k] == s.orders[k]
  }

  // The columns a change of status leaves alone.
  predicate SameButStatus(a: Order, b: Order) {
    && a.owner == b.owner && a.items == b.items && a.isCommission == b.isCommission && a.isArchived == b.isArchived
    && a.deliveryCost == b.deliveryCost && a.codFee == b.codFee && a.total == b.total
  }

  // The shelf after `sign` times the order's lines have come back to it. What
  // comes back is on sale; what is taken goes off sale with its last copy.
  ghost predicate ShelfMoved(s: Shop, after: Shop, items: seq<Item>, sign: int) {
    && after.paintings.Keys == s.paintings.Keys
    && forall p :: p in s.paintings ==>
         && after.paintings[p].amount == s.paintings[p].amount + sign * Qty(items, p)
         && after.paintings[p].price == s.paintings[p].price
         && after.paintings[p].isRepeatable == s.paintings[p].isRepeatable
         && (p !in Ids(items) ==> after.paintings[p] == s.paintings[p])
         && (p in Ids(items) ==>
               after.paintings[p].isAvailable
                 == (sign > 0 || (s.paintings[p].isAvailable && after.paintings[p].amount > 0)))
  }

  // ---- cancelling ----

  predicate MayCancel(s: Shop, who: Identity, id: nat) {
    id in s.orders && s.orders[id].owner == Some(who) && Open(s.orders[id])
  }

  // A customer may cancel exactly their own order, before it has left. Of
  // anyone else's order they learn nothing, not even that it is there.
  lemma CancelExactlyWhen(s: Shop, who: Identity, id: nat)
    ensures O.Cancel(s, who, id).Ok? <==> MayCancel(s, who, id)
    ensures !MayCancel(s, who, id) ==> M.Apply(s, M.Cancel(who, id)) == s
    ensures id !in s.orders || s.orders[id].owner != Some(who) ==> O.Cancel(s, who, id) == Err(NotFound)
    ensures id in s.orders && s.orders[id].owner == Some(who) ==>
              && (s.orders[id].status == Cancelled ==> O.Cancel(s, who, id) == Err(AlreadyCancelled))
              && (s.orders[id].status == Completed ==> O.Cancel(s, who, id) == Err(AlreadyCompleted))
              && (s.orders[id].status == Shipped ==> O.Cancel(s, who, id) == Err(AlreadyShipped))
  {
  }

  // What cancelling leaves, whoever does it.
  ghost predicate CancelledIn(s: Shop, after: Shop, id: nat)
    requires id in s.orders
  {
    && OnlyOrder(s, after, id) && SameButStatus(after.orders[id], s.orders[id]) && after.orders[id].status == Cancelled
    && after.orders[id].trackingNumber == s.orders[id].trackingNumber
    && if s.orders[id].isCommission then after.paintings == s.paintings
       else ShelfMoved(s, after, s.orders[id].items, 1)
  }

  lemma CancelLeaves(s: Shop, who: Identity, id: nat)
    requires MayCancel(s, who, id)
    ensures CancelledIn(s, M.Apply(s, M.Cancel(who, id)), id)
  {
    CancelTransactionLeaves(s, id);
  }

  lemma CancelTransactionLeaves(s: Shop, id: nat)
    requires id in s.orders
    ensures CancelledIn(s, O.CancelTransaction(s, id, s.orders[id]), id)
  {
    var items := s.orders[id].items;
    forall p | p in s.paintings ensures p !in Ids(items) ==> Qty(items, p) == 0 {
      if p !in Ids(items) {
        QtyAbsent(items, p);
      }
    }
  }

  // ---- the admin's status changes ----

  predicate BringsBack(s: Shop, id: nat, status: Status) {
    id in s.orders && s.orders[id].status == Cancelled && status != Cancelled && !s.orders[id].isCommission
  }

  predicate MayUpdate(s: Shop, id: nat, status: Status, waybill: Option<string>) {
    && id in s.orders
    && (s.orders[id].status == status
        || ((status == Shipped ==> waybill.Some?)
            && (BringsBack(s, id, status) ==> CanTakeBackAll(s.paintings, s.orders[id].items))))
  }

  // Refused for want of the order, of a waybill, or of the stock to bring it
  // back, in that order.
  lemma UpdateExactlyWhen(s: Shop, id: nat, status: Status, waybill: Option<string>)
    ensures O.UpdateStatus(s, id, status, waybill).Ok? <==> MayUpdate(s, id, status, waybill)
    ensures !MayUpdate(s, id, status, waybill) ==> M.Apply(s, M.UpdateStatus(id, status, waybill)) == s
    ensures !MayUpdate(s, id, status, waybill) ==>
              O.UpdateStatus(s, id, status, waybill)
              == Err(if id !in s.orders then NotFound
                     else if status == Shipped && waybill.None? then NoWaybill
                     else OutOfStock)
  {
  }

  ghost predicate UpdatedIn(s: Shop, after: Shop, id: nat, status: Status, waybill: Option<string>)
    requires id in s.orders
  {
    && OnlyOrder(s, after, id) && SameButStatus(after.orders[id], s.orders[id]) && after.orders[id].status == status
    && after.orders[id].trackingNumber
       == (if status == Shipped && s.orders[id].status != Shipped then waybill else s.orders[id].trackingNumber)
    && if s.orders[id].isCommission || (s.orders[id].status == Cancelled) == (status == Cancelled)
       then after.paintings == s.paintings
       else ShelfMoved(s, after, s.orders[id].items, if status == Cancelled then 1 else -1)
  }

  // The shelf moves exactly when the status enters or leaves CANCELLED; the
  // waybill is written exactly on shipping.
  lemma UpdateLeaves(s: Shop, id: nat, status: Status, waybill: Option<string>)
    requires Valid(s) && MayUpdate(s, id, status, waybill)
    ensures UpdatedIn(s, M.Apply(s, M.UpdateStatus(id, status, waybill)), id, status, waybill)
  {
    hide Valid, O.CancelTransaction, O.UncancelTransaction, M.Apply, ShelfMoved, CanTakeBackAll, Taken, Restored;
    UpdateSucceeds(s, id, status, waybill);
    var order := s.orders[id];
    if order.status != status && status == Cancelled {
      CancelTransactionLeaves(s, id);
    } else if order.status != status && order.status == Cancelled {
      var read := if status == Shipped then order.(trackingNumber := waybill) else order;
      UncancelSucceeds(s, id, status, waybill);
      UncancelTransactionLeaves(s, id, read, status);
    }
  }

  lemma UpdateSucceeds(s: Shop, id: nat, status: Status, waybill: Option<string>)
    requires MayUpdate(s, id, status, waybill)
    ensures O.UpdateStatus(s, id, status, waybill) == Ok(M.Apply(s, M.UpdateStatus(id, status, waybill)))
  {
  }

  lemma UncancelSucceeds(s: Shop, id: nat, status: Status, waybill: Option<string>)
    requires MayUpdate(s, id, status, waybill) && s.orders[id].status == Cancelled && status != Cancelled
    ensures var read := if status == Shipped then s.orders[id].(trackingNumber := waybill) else s.orders[id];
            O.UncancelTransaction(s, id, read, status).Ok?
  {
  }

  lemma UncancelTransactionLeaves(s: Shop, id: nat, read: Order, status: Status)
    requires Valid(s) && id in s.orders && read.items == s.orders[id].items
    requires O.UncancelTransaction(s, id, read, status).Ok?
    ensures var after := O.UncancelTransaction(s, id, read, status).value;
            && after == s.(paintings := after.paintings, orders := s.orders[id := read.(status := status)])
            && if read.isCommission then after.paintings == s.paintings else ShelfMoved(s, after, read.items, -1)
  {
    assert OrderValid(s.paintings, s.orders[id]);
    hide Valid, OrderValid, Qty, Distinct;
    if !read.isCommission {
      forall p | p in s.paintings
        ensures Taken(s.paintings, read.items)[p].amount == s.paintings[p].amount - Qty(read.items, p)
      {
        TakenIsExact(s.paintings, read.items, p);
      }
    }
  }

  // ---- commissions ----

  function Offer(s: Shop, p: int, offered: Option<int>): int
    requires p in s.paintings
  {
    match offered
    case Some(offer) => offer
    case None => s.paintings[p].price
  }

  // A repeat may be asked for exactly of a repeatable painting, at its price
  // or above; an offer left out is the price, and so never too low.
  lemma CommissionExactlyWhen(s: Shop, who: Identity, p: int, offered: Option<int>)
    ensures O.CreateCommission(s, who, p, offered).Ok?
            <==> p in s.paintings && s.paintings[p].isRepeatable && s.paintings[p].price <= Offer(s, p, offered)
    ensures p !in s.paintings ==> O.CreateCommission(s, who, p, offered) == Err(NotFound)
    ensures p in s.paintings && !s.paintings[p].isRepeatable ==>
              O.CreateCommission(s, who, p, offered) == Err(NotRepeatable)
    ensures p in s.paintings && s.paintings[p].isRepeatable ==>
              && O.CreateCommission(s, who, p, None).Ok?
              && forall offer :: offer < s.paintings[p].price ==>
                   O.CreateCommission(s, who, p, Some(offer)) == Err(OfferTooLow)
  {
  }

  lemma CommissionLeaves(s: Shop, who: Identity, p: int, offered: Option<int>)
    requires Valid(s) && O.CreateCommission(s, who, p, offered).Ok?
    ensures var after := M.Apply(s, M.CreateCommission(who, p, offered));
            && OnlyOrders(s, after) && s.nextOrder !in s.orders && after.orders - {s.nextOrder} == s.orders
            && s.nextOrder in after.orders
            && var order := after.orders[s.nextOrder];
               && order.owner == Some(who) && order.status == Pending && order.isCommission && !order.isArchived
               && order.total == Offer(s, p, offered)
               && order.items == [Item(p, 1, s.paintings[p].price)]
  {
  }

  // ---- deleting, archiving, claiming ----

  lemma RemoveExactlyWhen(s: Shop, id: nat)
    ensures O.RemoveOrder(s, id).Ok? <==> id in s.orders && s.orders[id].status == Cancelled
    ensures id !in s.orders <==> O.RemoveOrder(s, id) == Err(NotFound)
    ensures var after := M.Apply(s, M.RemoveOrder(id));
            && OnlyOrders(s, after) && after.nextOrder == s.nextOrder
            && after.orders == if O.RemoveOrder(s, id).Ok? then s.orders - {id} else s.orders
  {
  }

  lemma ArchiveExactlyWhen(s: Shop, id: nat)
    ensures O.ArchiveOrder(s, id).Ok? <==> id in s.orders && s.orders[id].status == Completed
    ensures id !in s.orders <==> O.ArchiveOrder(s, id) == Err(NotFound)
    ensures var after := M.Apply(s, M.ArchiveOrder(id));
            if O.ArchiveOrder(s, id).Ok?
            then OnlyOrders(s, after) && OnlyOrder(s, after, id) && after.orders[id].isArchived
                 && SameButStatus(after.orders[id].(isArchived := s.orders[id].isArchived), s.orders[id])
                 && after.orders[id].status == Completed
                 && after.orders[id].trackingNumber == s.orders[id].trackingNumber
            else after == s
  {
  }

  // Signing in moves the guest's orders to the account, and nothing else.
  lemma ClaimLeaves(s: Shop, user: int, token: string, id: nat)
    requires id in s.orders
    ensures var after := M.Apply(s, M.ClaimGuestOrders(user, token));
            && OnlyOrders(s, after) && after.orders.Keys == s.orders.Keys
            && after.orders[id].(owner := None) == s.orders[id].(owner := None)
            && after.orders[id].owner
               == (if s.orders[id].owner == Some(Guest(token)) then Some(User(user)) else s.orders[id].owner)
            && after.orders[id].owner != Some(Guest(token))
  {
  }

  // ---- over runs: what customers can do to an order ----

  // What reaches the shop from customers, not from the admin.
  predicate OfCustomer(e: M.Event) {
    || e.AddItem? || e.UpdateItem? || e.RemoveItem? || e.ClearCart? || e.MergeGuestCart?
    || e.Checkout? || e.Cancel? || e.CreateCommission? || e.ClaimGuestOrders?
  }

  // One customer's request moves one order's status in one way only.
  lemma CustomerMovesStatus(s: Shop, e: M.Event, id: nat)
    requires Valid(s) && id in s.orders && OfCustomer(e)
    ensures var after := M.Apply(s, e);
            && id in after.orders
            && (if e.Cancel? && e.id == id && MayCancel(s, e.who, id) then after.orders[id].status == Cancelled
                else after.orders[id].status == s.orders[id].status)
  {
    hide CartLines, StockOrder, CanSellAll, Taken, Restored, CartValid, OrderValid, O.ToCents, ItemsTotal;
    hide M.C.AddItem, M.C.UpdateItem, M.C.RemoveItem, M.C.MergeGuestCart;
    assert id < s.nextOrder;
    match e {
      case AddItem(_, _, _) => CartRequest(s, e);
      case UpdateItem(_, _, _) => CartRequest(s, e);
      case RemoveItem(_, _) => CartRequest(s, e);
      case MergeGuestCart(_, _) => CartRequest(s, e);
      case _ =>
    }
  }

  lemma CartRequest(s: Shop, e: M.Event)
    requires e.AddItem? || e.UpdateItem? || e.RemoveItem? || e.MergeGuestCart?
    ensures M.Apply(s, e).orders == s.orders
  {
  }

  predicate AllOfCustomers(es: seq<M.Event>) {
    forall e :: e in es ==> OfCustomer(e) && M.WellFormed(e)
  }

  lemma InitOf(es: seq<M.Event>)
    requires es != [] && AllOfCustomers(es)
    ensures AllOfCustomers(es[..|es| - 1]) && OfCustomer(es[|es| - 1]) && M.WellFormed(es[|es| - 1])
    ensures M.AllWellFormed(es[..|es| - 1])
  {
    assert es[|es| - 1] in es;
  }

  // No run of customers' requests moves an order that has been shipped,
  // completed or cancelled.
  lemma {:induction false} DepartedStays(s: Shop, es: seq<M.Event>, id: nat)
    requires Valid(s) && id in s.orders && !Open(s.orders[id]) && AllOfCustomers(es)
    ensures Valid(M.Run(s, es))
    ensures id in M.Run(s, es).orders && M.Run(s, es).orders[id].status == s.orders[id].status
  {
    hide Valid;
    if es != [] {
      var init, e := es[..|es| - 1], es[|es| - 1];
      InitOf(es);
      DepartedStays(s, init, id);
      M.ValidKept(M.Run(s, init), e);
      CustomerMovesStatus(M.Run(s, init), e, id);
    }
  }

  ghost predicate OwnerCancelsAt(s: Shop, es: seq<M.Event>, id: nat, n: nat)
    requires n < |es|
  {
    es[n].Cancel? && es[n].id == id && MayCancel(M.Run(s, es[..n]), es[n].who, id)
  }

  // And in any run of theirs an order's status moves exactly if somebody who
  // owns it at that moment cancels it before it has left.
  lemma {:induction false} OnlyOwnersCancel(s: Shop, es: seq<M.Event>, id: nat)
    requires Valid(s) && id in s.orders && AllOfCustomers(es)
    ensures Valid(M.Run(s, es)) && id in M.Run(s, es).orders
    ensures M.Run(s, es).orders[id].status != s.orders[id].status
            <==> exists n :: 0 <= n < |es| && OwnerCancelsAt(s, es, id, n)
    ensures M.Run(s, es).orders[id].status in {s.orders[id].status, Cancelled}
  {
    hide Valid;
    if es != [] {
      var init, e := es[..|es| - 1], es[|es| - 1];
      InitOf(es);
      OnlyOwnersCancel(s, init, id);
      var before := M.Run(s, init);
      M.ValidKept(before, e);
      CustomerMovesStatus(before, e, id);
      forall n | 0 <= n < |init| ensures OwnerCancelsAt(s, es, id, n) <==> OwnerCancelsAt(s, init, id, n) {
        assert es[..n] == init[..n];
      }
      assert OwnerCancelsAt(s, es, id, |es| - 1) <==> e.Cancel? && e.id == id && MayCancel(before, e.who, id);
      if exists n :: 0 <= n < |es| && OwnerCancelsAt(s, es, id, n) {
        var n :| 0 <= n < |es| && OwnerCancelsAt(s, es, id, n);
        if n < |init| {
          assert OwnerCancelsAt(s, init, id, n);
        }
      }
    }
  }
}
