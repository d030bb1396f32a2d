/** The shop as one machine: every request to the cart, order, painting and
    user services is an event, and a run is any sequence of them. */
module ShopMachine {
  import opened Wrappers
  import opened Entities
  import opened StockLines
  import opened Stock
  import opened Tables
  import C = CartRules
  import O = OrderRules
  import P = PaintingRules

  datatype Event =
    | AddItem(who: Identity, p: int, quantity: int)
    | UpdateItem(who: Identity, p: int, quantity: int)
    | RemoveItem(who: Identity, p: int)
    | ClearCart(who: Identity)
    | MergeGuestCart(user: int, token: string)
    | Checkout(who: Identity, req: O.CheckoutRequest)
    | Cancel(who: Identity, id: nat)
    | UpdateStatus(id: nat, status: Status, waybill: Option<string>)
    | CreateCommission(who: Identity, p: int, offered: Option<int>)
    | ClaimGuestOrders(user: int, token: string)
    | RemoveOrder(id: nat)
    | ArchiveOrder(id: nat)
    | CreatePainting(price: int, copies: Option<int>, available: Option<bool>, repeatable: bool)
    | UpdatePainting(p: int, patch: P.Patch)
    | RemovePainting(p: int)
    | DeleteUser(user: int)

  // Orders stay, without their owner; the cart goes.
  function WithoutUser(s: Shop, user: int): Shop {
    s.(orders := O.Reowned(s.orders, User(user), None), cart := WithoutCartOf(s.cart, User(user)))
  }

  function Next(s: Shop, e: Event): Result<Shop, Rejection> {
    match e
    case AddItem(who, p, quantity) => C.AddItem(s, who, p, quantity)
    case UpdateItem(who, p, quantity) => C.UpdateItem(s, who, p, quantity)
    case RemoveItem(who, p) => C.RemoveItem(s, who, p)
    case ClearCart(who) => Ok(C.ClearCart(s, who))
    case MergeGuestCart(user, token) => Ok(C.MergeGuestCart(s, user, token))
    case Checkout(who, req) => O.Checkout(s, who, req)
    case Cancel(who, id) => O.Cancel(s, who, id)
    case UpdateStatus(id, status, waybill) => O.UpdateStatus(s, id, status, waybill)
    case CreateCommission(who, p, offered) => O.CreateCommission(s, who, p, offered)
    case ClaimGuestOrders(user, token) => Ok(O.ClaimGuestOrders(s, user, token))
    case RemoveOrder(id) => O.RemoveOrder(s, id)
    case ArchiveOrder(id) => O.ArchiveOrder(s, id)
    case CreatePainting(price, copies, available, repeatable) =>
      Ok(P.CreatePainting(s, price, copies, available, repeatable))
    case UpdatePainting(p, patch) => P.UpdatePainting(s, p, patch)
    case RemovePainting(p) => P.RemovePainting(s, p)
    case DeleteUser(user) => Ok(WithoutUser(s, user))
  }

  // A rejected request changes nothing.
  function Apply(s: Shop, e: Event): Shop {
    match Next(s, e)
    case Ok(after) => after
    case Err(_) => s
  }

  function Run(s: Shop, es: seq<Event>): Shop {
    if es == [] then s else Apply(Run(s, es[..|es| - 1]), es[|es| - 1])
  }

  // What the request validation lets through.
  predicate WellFormed(e: Event) {
    match e
    case AddItem(_, _, quantity) => quantity >= 1
    case UpdateItem(_, _, quantity) => quantity >= 1
    case CreatePainting(_, copies, _, _) => P.Or(copies, 1) >= 0
    case UpdatePainting(_, patch) => P.Or(patch.amount, 0) >= 0
    case _ => true
  }

  predicate AllWellFormed(es: seq<Event>) {
    forall e :: e in es ==> WellFormed(e)
  }

  // The copies an event brings in or writes off: only the catalogue's own
  // writes do either.
  function Adjustment(s: Shop, e: Event, p: int): int {
    match e
    case CreatePainting(_, copies, _, _) => if p == s.nextPainting then P.Or(copies, 1) else 0
    case UpdatePainting(q, patch) =>
      if p == q && q in s.paintings && patch.amount.Some? then patch.amount.value - s.paintings[q].amount else 0
    case RemovePainting(q) =>
      if p == q && P.RemovePainting(s, q).Ok? then -s.paintings[q].amount else 0
    case _ => 0
  }

  function Adjustments(s: Shop, es: seq<Event>, p: int): int {
    if es == [] then 0
    else Adjustments(s, es[..|es| - 1], p) + Adjustment(Run(s, es[..|es| - 1]), es[|es| - 1], p)
  }

  // ---- the transactions conserve copies ----

  lemma CheckoutConserves(s: Shop, who: Identity, lines: seq<Item>, delivery: int, cod: int, p: int)
    requires Valid(s) && Distinct(lines) && (forall item :: item in lines ==> item.quantity >= 0)
    requires O.CheckoutTransaction(s, who, lines, delivery, cod).Ok?
    ensures var after := O.CheckoutTransaction(s, who, lines, delivery, cod).value;
            Valid(after) && CopiesOf(after, p) == CopiesOf(s, p)
  {
    hide Distinct, Ids, StockOrder;
    var after := O.CheckoutTransaction(s, who, lines, delivery, cod).value;
    var plan := StockOrder(lines);
    StockOrderSorts(lines);
    StockOrderKeepsDistinct(lines);
    MovesRearranged(s.paintings, plan, lines);
    O.SellableIdsExist(s.paintings, plan);
    O.PricedKeepsLines(s.paintings, plan);
    QtyRearranged(plan, lines, p);
    HeldChangesByOne(s.orders, after.orders, s.nextOrder, s.nextOrder, p);
    assert CanTakeBackAll(s.paintings, lines);
    if p in s.paintings {
      TakenIsExact(s.paintings, lines, p);
    } else {
      QtyAbsent(plan, p);
    }
    CheckoutValid(s, who, lines, delivery, cod);
  }

  lemma NewOrderValid(ps: Paintings, who: Identity, lines: seq<Item>, delivery: int, cod: int)
    requires Distinct(lines) && (forall item :: item in lines ==> item.quantity >= 0)
    requires CanSellAll(ps, StockOrder(lines))
    ensures Ids(StockOrder(lines)) <= ps.Keys
    ensures var items := O.Priced(ps, StockOrder(lines));
            var total := ItemsTotal(items) + delivery + cod;
            OrderValid(ps, Order(Some(who), items, Pending, false, false, None, delivery, cod, total))
  {
    hide Ids, Qty, StockOrder, CanSell, Distinct, ItemsTotal;
    var plan := StockOrder(lines);
    StockOrderSorts(lines);
    StockOrderKeepsDistinct(lines);
    SameItems(plan, lines);
    O.SellableIdsExist(ps, plan);
    O.PricedKeepsLines(ps, plan);
    PricedCounts(ps, plan);
  }

  lemma PricedCounts(ps: Paintings, plan: seq<Item>)
    requires Ids(plan) <= ps.Keys && (forall item :: item in plan ==> item.quantity >= 0)
    ensures forall item :: item in O.Priced(ps, plan) ==> item.quantity >= 0
  {
  }

  lemma CheckoutValid(s: Shop, who: Identity, lines: seq<Item>, delivery: int, cod: int)
    requires Valid(s) && Distinct(lines) && (forall item :: item in lines ==> item.quantity >= 0)
    requires O.CheckoutTransaction(s, who, lines, delivery, cod).Ok?
    ensures Valid(O.CheckoutTransaction(s, who, lines, delivery, cod).value)
  {
    var after := O.CheckoutTransaction(s, who, lines, delivery, cod).value;
    hide Distinct, Ids, Qty, CanSellAll, MoneyAddsUp, O.Priced, StockOrder, ItemsTotal;
    NewOrderValid(s.paintings, who, lines, delivery, cod);
    NoDebtAfterTaking(s.paintings, lines);
    assert after.paintings.Keys == s.paintings.Keys;
    assert OrdersValid(after);
  }

  lemma NoDebtAfterTaking(ps: Paintings, items: seq<Item>)
    requires NoDebt(ps)
    ensures NoDebt(Taken(ps, items)) && Taken(ps, items).Keys == ps.Keys
  {
  }

  // Restoring can only go below nothing if a line's quantity does.
  lemma CancelConserves(s: Shop, id: nat, p: int)
    requires Valid(s) && id in s.orders && s.orders[id].status != Cancelled
    ensures CopiesOf(O.CancelTransaction(s, id, s.orders[id]), p) == CopiesOf(s, p)
  {
    var order := s.orders[id];
    var after := O.CancelTransaction(s, id, order);
    HeldChangesByOne(s.orders, after.orders, s.nextOrder, id, p);
    if !order.isCommission {
      if p in s.paintings {
        RestoredIsExact(s.paintings, order.items, p);
      } else {
        QtyAbsent(order.items, p);
      }
    }
  }

  lemma UncancelConserves(s: Shop, id: nat, order: Order, status: Status, p: int)
    requires Valid(s) && id in s.orders && s.orders[id].status == Cancelled && status != Cancelled
    requires order.items == s.orders[id].items && order.isCommission == s.orders[id].isCommission
    requires O.UncancelTransaction(s, id, order, status).Ok?
    ensures CopiesOf(O.UncancelTransaction(s, id, order, status).value, p) == CopiesOf(s, p)
  {
    var after := O.UncancelTransaction(s, id, order, status).value;
    HeldChangesByOne(s.orders, after.orders, s.nextOrder, id, p);
    if !order.isCommission {
      if p in s.paintings {
        TakenIsExact(s.paintings, order.items, p);
      } else {
        QtyAbsent(order.items, p);
      }
    }
  }

  // ---- the constraints survive every event ----

  lemma {:induction false} QtyNotNegative(items: seq<Item>, p: int)
    requires forall item :: item in items ==> item.quantity >= 0
    ensures Qty(items, p) >= 0
  {
    if items != [] {
      assert items[|items| - 1] in items;
      QtyNotNegative(items[..|items| - 1], p);
    }
  }

  lemma CancelValid(s: Shop, id: nat)
    requires Valid(s) && id in s.orders
    ensures Valid(O.CancelTransaction(s, id, s.orders[id]))
  {
    var order := s.orders[id];
    forall p ensures Qty(order.items, p) >= 0 {
      QtyNotNegative(order.items, p);
    }
    assert OrderValid(s.paintings, order);
  }

  lemma StatusValid(s: Shop, id: nat, status: Status, waybill: Option<string>)
    requires Valid(s) && O.UpdateStatus(s, id, status, waybill).Ok?
    ensures Valid(O.UpdateStatus(s, id, status, waybill).value)
  {
    if s.orders[id].status != status {
      if status == Cancelled {
        CancelValid(s, id);
      } else {
        NoDebtAfterTaking(s.paintings, s.orders[id].items);
        var after := O.UpdateStatus(s, id, status, waybill).value;
        var order := after.orders[id];
        assert order.items == s.orders[id].items
               && order == s.orders[id].(trackingNumber := order.trackingNumber, status := status);
        OneOrderRewritten(s, after, id);
      }
    }
  }

  lemma OneOrderRewritten(s: Shop, after: Shop, id: nat)
    requires Valid(s) && id in s.orders && id in after.orders
    requires after.paintings.Keys == s.paintings.Keys && NoDebt(after.paintings)
    requires after == s.(paintings := after.paintings, orders := s.orders[id := after.orders[id]])
    requires after.orders[id]
               == s.orders[id].(trackingNumber := after.orders[id].trackingNumber, status := after.orders[id].status)
    ensures Valid(after)
  {
  }

  lemma CheckoutLines(s: Shop, who: Identity)
    requires Valid(s)
    ensures var lines := CartLines(s.cart, s.nextCart, who);
            Distinct(lines) && (forall item :: item in lines ==> item.quantity >= 0)
  {
    CartLinesDistinct(s, s.nextCart, who);
  }

  lemma ReownedValid(s: Shop, was: Identity, now: Option<Identity>)
    requires Valid(s)
    ensures OrdersValid(s.(orders := O.Reowned(s.orders, was, now)))
    ensures forall n: nat, p: int :: HeldByAll(O.Reowned(s.orders, was, now), n, p) == HeldByAll(s.orders, n, p)
  {
    forall n: nat, p: int ensures HeldByAll(O.Reowned(s.orders, was, now), n, p) == HeldByAll(s.orders, n, p) {
      HeldUnchanged(s.orders, O.Reowned(s.orders, was, now), n, p);
    }
  }

  lemma CommissionValid(s: Shop, who: Identity, p: int, offered: Option<int>)
    requires Valid(s) && O.CreateCommission(s, who, p, offered).Ok?
    ensures Valid(O.CreateCommission(s, who, p, offered).value)
    ensures forall q :: CopiesOf(O.CreateCommission(s, who, p, offered).value, q) == CopiesOf(s, q)
  {
    var after := O.CreateCommission(s, who, p, offered).value;
    assert Ids(after.orders[s.nextOrder].items) == {p};
    forall q ensures CopiesOf(after, q) == CopiesOf(s, q) {
      HeldChangesByOne(s.orders, after.orders, s.nextOrder, s.nextOrder, q);
    }
  }

  lemma RemovedPaintingValid(s: Shop, p: int)
    requires Valid(s) && P.RemovePainting(s, p).Ok?
    ensures Valid(P.RemovePainting(s, p).value)
  {
  }

  lemma CartEventValid(s: Shop, e: Event)
    requires Valid(s) && WellFormed(e)
             && (e.AddItem? || e.UpdateItem? || e.RemoveItem? || e.ClearCart? || e.MergeGuestCart?)
    ensures Valid(Apply(s, e))
    ensures Apply(s, e).paintings == s.paintings && Apply(s, e).orders == s.orders
            && Apply(s, e).nextOrder == s.nextOrder
  {
    hide OrderValid, NoDebt, CartValid, NoNegativeRow, C.MergedRow, C.Folded;
    match e {
      case AddItem(who, p, quantity) => AddedRowValid(s, e);
      case UpdateItem(who, p, quantity) => AddedRowValid(s, e);
      case RemoveItem(who, p) => FewerRowsValid(s, e);
      case ClearCart(who) => FewerRowsValid(s, e);
      case MergeGuestCart(user, token) =>
        C.MergeKeepsKeys(s, user, token);
        MergeNotNegative(s, user, token);
    }
  }

  lemma AddedRowValid(s: Shop, e: Event)
    requires Valid(s) && WellFormed(e) && (e.AddItem? || e.UpdateItem?)
    ensures CartValid(Apply(s, e)) && NoNegativeRow(Apply(s, e))
  {
  }

  lemma FewerRowsValid(s: Shop, e: Event)
    requires Valid(s) && (e.RemoveItem? || e.ClearCart?)
    ensures CartValid(Apply(s, e)) && NoNegativeRow(Apply(s, e))
  {
  }

  lemma MergeNotNegative(s: Shop, user: int, token: string)
    requires Valid(s)
    ensures NoNegativeRow(C.MergeGuestCart(s, user, token))
  {
  }

  // Every event keeps the uniqueness of cart rows, the foreign keys, every
  // order's arithmetic, and every amount at or above zero.
  lemma ValidKept(s: Shop, e: Event)
    requires Valid(s) && WellFormed(e)
    ensures Valid(Apply(s, e))
  {
    hide Valid, CartLines, WithoutCartOf, O.Reowned, O.CheckoutTransaction, O.CancelTransaction;
    match e {
      case Checkout(who, req) =>
        CheckoutLines(s, who);
        if Next(s, e).Ok? {
          CheckoutValid(s, who, CartLines(s.cart, s.nextCart, who),
            O.ToCents(req.quote.value.shippingCost), O.ToCents(req.quote.value.redeliveryCost));
        }
      case Cancel(who, id) =>
        if Next(s, e).Ok? {
          CancelValid(s, id);
        }
      case UpdateStatus(id, status, waybill) =>
        if Next(s, e).Ok? {
          StatusValid(s, id, status, waybill);
        }
      case CreateCommission(who, p, offered) =>
        if Next(s, e).Ok? {
          CommissionValid(s, who, p, offered);
        }
      case ClaimGuestOrders(user, token) => HandOverValid(s, e);
      case DeleteUser(user) => HandOverValid(s, e);
      case RemovePainting(p) =>
        if Next(s, e).Ok? {
          RemovedPaintingValid(s, p);
        }
      case RemoveOrder(id) => OrderRowValid(s, e);
      case ArchiveOrder(id) => OrderRowValid(s, e);
      case CreatePainting(price, copies, available, repeatable) => PaintingRowValid(s, e);
      case UpdatePainting(p, patch) => PaintingRowValid(s, e);
      case _ => CartEventValid(s, e);
    }
  }

  lemma HandOverValid(s: Shop, e: Event)
    requires Valid(s) && (e.ClaimGuestOrders? || e.DeleteUser?)
    ensures Valid(Apply(s, e))
  {
  }

  lemma OrderRowValid(s: Shop, e: Event)
    requires Valid(s) && (e.RemoveOrder? || e.ArchiveOrder?)
    ensures Valid(Apply(s, e))
  {
  }

  lemma PaintingRowValid(s: Shop, e: Event)
    requires Valid(s) && WellFormed(e) && (e.CreatePainting? || e.UpdatePainting?)
    ensures Valid(Apply(s, e))
  {
  }

  // Copies are neither made nor lost: whatever the event, what is on the
  // shelf plus what live orders hold moves by the catalogue's adjustment.
  lemma Conserved(s: Shop, e: Event, p: int)
    requires Valid(s) && WellFormed(e)
    ensures CopiesOf(Apply(s, e), p) == CopiesOf(s, p) + Adjustment(s, e, p)
  {
    hide Valid, CartLines, WithoutCartOf, O.Reowned, O.CheckoutTransaction, O.CancelTransaction, CopiesOf, Adjustment;
    match e {
      case Checkout(who, req) =>
        NoAdjustment(s, e, p);
        CheckoutLines(s, who);
        if Next(s, e).Ok? {
          CheckoutConserves(s, who, CartLines(s.cart, s.nextCart, who),
            O.ToCents(req.quote.value.shippingCost), O.ToCents(req.quote.value.redeliveryCost), p);
        }
      case Cancel(who, id) =>
        NoAdjustment(s, e, p);
        if Next(s, e).Ok? {
          CancelConserves(s, id, p);
        }
      case UpdateStatus(id, status, waybill) =>
        NoAdjustment(s, e, p);
        if Next(s, e).Ok? {
          StatusConserves(s, id, status, waybill, p);
        }
      case CreateCommission(who, q, offered) =>
        NoAdjustment(s, e, p);
        if Next(s, e).Ok? {
          CommissionValid(s, who, q, offered);
        }
      case CreatePainting(price, copies, available, repeatable) => CatalogueAdjusts(s, e, p);
      case UpdatePainting(q, patch) => CatalogueAdjusts(s, e, p);
      case RemovePainting(q) => CatalogueAdjusts(s, e, p);
      case _ =>
        NoAdjustment(s, e, p);
        QuietEventConserves(s, e, p);
    }
  }

  lemma NoAdjustment(s: Shop, e: Event, p: int)
    requires !e.CreatePainting? && !e.UpdatePainting? && !e.RemovePainting?
    ensures Adjustment(s, e, p) == 0
  {
  }

  lemma CatalogueAdjusts(s: Shop, e: Event, p: int)
    requires Valid(s) && (e.CreatePainting? || e.UpdatePainting? || e.RemovePainting?)
    ensures CopiesOf(Apply(s, e), p) == CopiesOf(s, p) + Adjustment(s, e, p)
  {
  }

  // Signing in, deleting an account, clearing away a settled order.
  lemma QuietEventConserves(s: Shop, e: Event, p: int)
    requires Valid(s) && WellFormed(e)
    requires e.AddItem? || e.UpdateItem? || e.RemoveItem? || e.ClearCart? || e.MergeGuestCart?
             || e.ClaimGuestOrders? || e.DeleteUser? || e.RemoveOrder? || e.ArchiveOrder?
    ensures CopiesOf(Apply(s, e), p) == CopiesOf(s, p)
  {
    hide CartValid, OrdersValid, NoDebt;
    match e {
      case ClaimGuestOrders(user, token) => ReownedValid(s, Guest(token), Some(User(user)));
      case DeleteUser(user) => ReownedValid(s, User(user), None);
      case RemoveOrder(id) => HeldUnchanged(s.orders, Apply(s, e).orders, s.nextOrder, p);
      case ArchiveOrder(id) => HeldUnchanged(s.orders, Apply(s, e).orders, s.nextOrder, p);
      case _ => CartEventValid(s, e);
    }
  }

  lemma StatusConserves(s: Shop, id: nat, status: Status, waybill: Option<string>, p: int)
    requires Valid(s) && O.UpdateStatus(s, id, status, waybill).Ok?
    ensures CopiesOf(O.UpdateStatus(s, id, status, waybill).value, p) == CopiesOf(s, p)
  {
    if s.orders[id].status != status {
      if status == Cancelled {
        CancelConserves(s, id, p);
      } else if s.orders[id].status == Cancelled {
        var order := if status == Shipped then s.orders[id].(trackingNumber := waybill) else s.orders[id];
        UncancelConserves(s, id, order, status, p);
      } else {
        HeldUnchanged(s.orders, O.UpdateStatus(s, id, status, waybill).value.orders, s.nextOrder, p);
      }
    }
  }

  // ---- whole runs ----

  lemma {:induction false} RunConserves(s: Shop, es: seq<Event>, p: int)
    requires Valid(s) && AllWellFormed(es)
    ensures Valid(Run(s, es))
    ensures CopiesOf(Run(s, es), p) == CopiesOf(s, p) + Adjustments(s, es, p)
  {
    if es != [] {
      var init, e := es[..|es| - 1], es[|es| - 1];
      assert e in es;
      RunConserves(s, init, p);
      ValidKept(Run(s, init), e);
      Conserved(Run(s, init), e, p);
    }
  }

  // No run promises more copies than there ever were.
  lemma NoOversell(s: Shop, es: seq<Event>, p: int)
    requires Valid(s) && AllWellFormed(es)
    ensures HeldByAll(Run(s, es).orders, Run(s, es).nextOrder, p) <= CopiesOf(s, p) + Adjustments(s, es, p)
  {
    RunConserves(s, es, p);
  }

  // ---- what is for sale can be bought ----

  ghost predicate Positive(s: Shop) {
    && C.CartPositive(s)
    && forall id :: id in s.orders ==> OrderPositive(s.orders[id])
  }

  ghost predicate Sellable(s: Shop) {
    OnSaleMeansInStock(s.paintings)
  }

  ghost predicate MergesSoldOut(s: Shop, e: Event) {
    e.MergeGuestCart? && C.SharesSoldOut(s, e.user, e.token)
  }

  ghost predicate OrderPositive(order: Order) {
    forall item :: item in order.items ==> item.quantity >= 1
  }

  // Exactly one thing can put a line for nothing into a cart or an order.
  lemma PositiveKept(s: Shop, e: Event)
    requires Valid(s) && Positive(s) && WellFormed(e)
    ensures Positive(Apply(s, e)) <==> !MergesSoldOut(s, e)
  {
    hide CartValid, OrderValid, Distinct, Ids, Qty, Taken, Restored, StockOrder, O.Priced, C.SharesSoldOut,
         C.MergedRow, C.Folded;
    if e.MergeGuestCart? {
      C.MergeKeepsPositive(s, e.user, e.token);
    } else {
      PositiveCarts(s, e);
      PositiveOrders(s, e);
    }
  }

  lemma PositiveCarts(s: Shop, e: Event)
    requires Valid(s) && C.CartPositive(s) && WellFormed(e) && !e.MergeGuestCart?
    ensures C.CartPositive(Apply(s, e))
  {
  }

  lemma PositiveOrders(s: Shop, e: Event)
    requires Valid(s) && Positive(s) && WellFormed(e) && !e.MergeGuestCart?
    ensures forall id :: id in Apply(s, e).orders ==> OrderPositive(Apply(s, e).orders[id])
  {
    hide CartValid, OrderValid, Distinct, Ids, Qty, Taken, Restored, StockOrder, O.Priced;
    if e.Checkout? && Next(s, e).Ok? {
      PositiveCheckout(s, e.who);
    }
  }

  lemma PositiveCheckout(s: Shop, who: Identity)
    requires Valid(s) && Positive(s)
    requires CanSellAll(s.paintings, StockOrder(CartLines(s.cart, s.nextCart, who)))
    ensures Ids(StockOrder(CartLines(s.cart, s.nextCart, who))) <= s.paintings.Keys
    ensures forall item :: item in O.Priced(s.paintings, StockOrder(CartLines(s.cart, s.nextCart, who))) ==>
              item.quantity >= 1
  {
    var lines := CartLines(s.cart, s.nextCart, who);
    var plan := StockOrder(lines);
    CartLinesDistinct(s, s.nextCart, who);
    StockOrderSorts(lines);
    SameItems(plan, lines);
    O.SellableIdsExist(s.paintings, plan);
    forall i | 0 <= i < |plan| ensures O.Priced(s.paintings, plan)[i].quantity >= 1 {
      assert plan[i] in lines;
      var id :| id < s.nextCart && id in s.cart && s.cart[id].owner == who
                && plan[i] == Item(s.cart[id].paintingId, s.cart[id].quantity, 0);
    }
  }

  ghost predicate OnSaleMeansInStock(ps: Paintings) {
    forall p :: p in ps && ps[p].isAvailable ==> ps[p].amount > 0
  }

  lemma OnSaleAfterTaking(ps: Paintings, items: seq<Item>)
    requires OnSaleMeansInStock(ps)
    ensures OnSaleMeansInStock(Taken(ps, items))
  {
  }

  // The order a request cancels, when it does.
  predicate Cancels(s: Shop, e: Event, id: nat) {
    && Next(s, e).Ok? && id in s.orders && s.orders[id].status != Cancelled
    && ((e.Cancel? && e.id == id) || (e.UpdateStatus? && e.id == id && e.status == Cancelled))
  }

  ghost predicate RestoresNothing(s: Shop, e: Event) {
    (e.Cancel? || e.UpdateStatus?) && Cancels(s, e, e.id) && !s.orders[e.id].isCommission
    && BringsBackNothing(s.paintings, s.orders[e.id].items)
  }

  ghost predicate BringsBackNothing(ps: Paintings, items: seq<Item>) {
    exists item :: item in items && item.quantity == 0 && item.paintingId in ps && ps[item.paintingId].amount == 0
  }

  lemma RestoringNothing(ps: Paintings, items: seq<Item>)
    requires Distinct(items) && NoDebt(ps) && (forall item :: item in items ==> item.quantity >= 0)
    requires OnSaleMeansInStock(ps) && Ids(items) <= ps.Keys
    ensures OnSaleMeansInStock(Restored(ps, items))
            <==> !BringsBackNothing(ps, items)
  {
    forall item | item in items ensures item.paintingId in Ids(items) && Qty(items, item.paintingId) == item.quantity {
      QtyIn(items, item);
    }
    if OnSaleMeansInStock(Restored(ps, items)) {
      forall item | item in items ensures !(item.quantity == 0 && ps[item.paintingId].amount == 0) {
        assert Restored(ps, items)[item.paintingId].isAvailable;
      }
    } else {
      var p :| p in ps && Restored(ps, items)[p].isAvailable && Restored(ps, items)[p].amount <= 0;
      assert p in Ids(items);
      var item :| item in items && item.paintingId == p;
      assert item.quantity == 0 && ps[item.paintingId].amount == 0;
    }
  }

  // Exactly one kind of event puts an empty shelf on sale: a cancel that
  // brings back no copies of a painting there are no copies of.
  lemma SellableExactlyWhen(s: Shop, e: Event)
    requires Valid(s) && Sellable(s)
    ensures Sellable(Apply(s, e)) <==> !RestoresNothing(s, e)
  {
    hide Taken, Restored, Distinct, Ids, Qty, CanSellAll, CanTakeBackAll, CartValid, MoneyAddsUp, BringsBackNothing;
    match e {
      case Cancel(who, id) =>
        if id in s.orders {
          assert OrderValid(s.paintings, s.orders[id]);
          RestoringNothing(s.paintings, s.orders[id].items);
        }
      case UpdateStatus(id, status, waybill) =>
        if id in s.orders {
          assert OrderValid(s.paintings, s.orders[id]);
          RestoringNothing(s.paintings, s.orders[id].items);
          OnSaleAfterTaking(s.paintings, s.orders[id].items);
        }
      case Checkout(who, req) => OnSaleAfterTaking(s.paintings, CartLines(s.cart, s.nextCart, who));
      case _ => OthersSellable(s, e);
    }
  }

  // So, with every line asking for at least one copy, no event does it.
  lemma SellableKept(s: Shop, e: Event)
    requires Valid(s) && Positive(s) && Sellable(s)
    ensures Sellable(Apply(s, e))
  {
    SellableExactlyWhen(s, e);
  }

  lemma OthersSellable(s: Shop, e: Event)
    requires Valid(s) && Sellable(s) && !e.Cancel? && !e.UpdateStatus? && !e.Checkout?
    ensures Sellable(Apply(s, e))
  {
    hide CartValid, OrdersValid;
  }

  ghost predicate NeverMergesSoldOut(s: Shop, es: seq<Event>) {
    forall n :: 0 <= n < |es| ==> !MergesSoldOut(Run(s, es[..n]), es[n])
  }

  lemma {:induction false} RunSellable(s: Shop, es: seq<Event>)
    requires Valid(s) && Positive(s) && Sellable(s) && AllWellFormed(es)
    requires NeverMergesSoldOut(s, es)
    ensures Valid(Run(s, es)) && Positive(Run(s, es)) && Sellable(Run(s, es))
  {
    if es != [] {
      var init, e := es[..|es| - 1], es[|es| - 1];
      assert e in es;
      assert forall n :: 0 <= n < |init| ==> init[..n] == es[..n];
      RunSellable(s, init);
      ValidKept(Run(s, init), e);
      PositiveKept(Run(s, init), e);
      SellableKept(Run(s, init), e);
    }
  }

  // ---- the exception is real ----

  // Painting 1 has sold out while user 7 and the guest "g" both hold it in
  // their carts. Each step below is one request.
  const SOLD_OUT := Shop(map[1 := Painting(100, 0, false, false)], 2,
                         map[0 := CartRow(User(7), 1, 1), 1 := CartRow(Guest("g"), 1, 1)], 2, map[], 0)
  const FREE_DELIVERY := O.CheckoutRequest(true, true, Some(O.Quote(0.0, 0.0)))
  const NOTHING_BOUGHT := Order(Some(User(7)), [Item(1, 0, 100)], Pending, false, false, None, 0, 0, 0)

  // Signing in leaves a row for nothing in the cart ...
  lemma SignInLeavesZeroRow()
    ensures Valid(SOLD_OUT) && Positive(SOLD_OUT) && Sellable(SOLD_OUT)
    ensures Apply(SOLD_OUT, MergeGuestCart(7, "g")) == SOLD_OUT.(cart := map[0 := CartRow(User(7), 1, 0)])
  {
    var s := SOLD_OUT;
    assert RowOf(s.cart, 2, User(7), 1) == Some(0);
    assert RowOf(s.cart, 2, Guest("g"), 1) == Some(1);
    assert C.Folded(s, 7, "g", s.cart[1]) && !C.Folded(s, 7, "g", s.cart[0]);
    assert C.MergedRow(s, 7, "g", s.cart[0]) == CartRow(User(7), 1, 0);
    assert C.MergeGuestCart(s, 7, "g").cart == map[0 := CartRow(User(7), 1, 0)];
  }

  // ... which buys nothing once the painting has been restocked ...
  lemma ZeroRowChecksOut(s: Shop)
    requires s == SOLD_OUT.(cart := map[0 := CartRow(User(7), 1, 0)],
                            paintings := map[1 := Painting(100, 5, true, false)])
    ensures Apply(s, Checkout(User(7), FREE_DELIVERY))
            == s.(cart := map[], orders := map[0 := NOTHING_BOUGHT], nextOrder := 1)
  {
    assert CartLines(s.cart, 1, User(7)) == [Item(1, 0, 0)];
    assert CartLines(s.cart, 2, User(7)) == [Item(1, 0, 0)];
    var lines := [Item(1, 0, 0)];
    assert StockOrder(lines[1..]) == [];
    assert StockOrder(lines) == lines;
    assert Qty(lines, 1) == 0 by { QtyAt(lines, 0); }
    assert Ids(lines) == {1};
    assert Taken(s.paintings, lines) == s.paintings;
    var items := O.Priced(s.paintings, lines);
    assert items == [Item(1, 0, 100)];
    assert ItemsTotal(items[..0]) == 0;
    assert ItemsTotal(items) == 0;
    assert O.ToCents(0.0) == 0;
    assert WithoutCartOf(s.cart, User(7)) == map[];
  }

  // ... and, cancelled after it has sold out again, puts an empty shelf on sale.
  lemma CancellingNothingGoesOnSale(s: Shop)
    requires s == SOLD_OUT.(cart := map[], orders := map[0 := NOTHING_BOUGHT], nextOrder := 1)
    ensures var after := Apply(s, Cancel(User(7), 0));
            after.paintings == map[1 := Painting(100, 0, true, false)] && !Sellable(after)
  {
    var items := NOTHING_BOUGHT.items;
    assert Qty(items, 1) == 0 by { QtyAt(items, 0); }
    assert Ids(items) == {1};
    assert Restored(s.paintings, items)[1] == Painting(100, 0, true, false);
  }

  const EMPTY_SHELF_RUN := [
    MergeGuestCart(7, "g"),
    UpdatePainting(1, P.Patch(None, Some(5), Some(true), None)),
    Checkout(User(7), FREE_DELIVERY),
    UpdatePainting(1, P.Patch(None, Some(0), None, None)),
    Cancel(User(7), 0)]

  lemma FiveEvents(s: Shop, es: seq<Event>)
    requires |es| == 5
    ensures Run(s, es) == Apply(Apply(Apply(Apply(Apply(s, es[0]), es[1]), es[2]), es[3]), es[4])
  {
    hide Apply;
    assert es[..4][..3] == es[..3] && es[..3][..2] == es[..2] && es[..2][..1] == es[..1] && es[..1][..0] == [];
    assert Run(s, es[..1]) == Apply(s, es[0]);
    assert Run(s, es[..2]) == Apply(Run(s, es[..1]), es[1]);
    assert Run(s, es[..3]) == Apply(Run(s, es[..2]), es[2]);
    assert Run(s, es[..4]) == Apply(Run(s, es[..3]), es[3]);
  }

  lemma RestockThenSellOut(s: Shop)
    requires s.paintings == SOLD_OUT.paintings
    ensures Apply(s, EMPTY_SHELF_RUN[1]) == s.(paintings := map[1 := Painting(100, 5, true, false)])
    ensures Apply(s.(paintings := map[1 := Painting(100, 5, true, false)]), EMPTY_SHELF_RUN[3]) == s
  {
  }

  lemma EmptyShelfOnSale()
    ensures AllWellFormed(EMPTY_SHELF_RUN)
    ensures Valid(SOLD_OUT) && Positive(SOLD_OUT) && Sellable(SOLD_OUT)
    ensures !Sellable(Run(SOLD_OUT, EMPTY_SHELF_RUN))
  {
    FiveEvents(SOLD_OUT, EMPTY_SHELF_RUN);
    SignInLeavesZeroRow();
    hide Apply;
    var s1 := SOLD_OUT.(cart := map[0 := CartRow(User(7), 1, 0)]);
    RestockThenSellOut(s1);
    var s2 := s1.(paintings := map[1 := Painting(100, 5, true, false)]);
    ZeroRowChecksOut(s2);
    var s3 := s1.(cart := map[], orders := map[0 := NOTHING_BOUGHT], nextOrder := 1);
    RestockThenSellOut(s3);
    CancellingNothingGoesOnSale(s3);
  }
}
