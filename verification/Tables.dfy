/** The constraints the tables carry, and the queries the services make. */
module Tables {
  import opened Wrappers
  import opened Entities
  import opened StockLines
  import opened Stock

  // cart_items: unique (owner, painting), and a foreign key to paintings.
  predicate SameKey(a: CartRow, b: CartRow) {
    a.owner == b.owner && a.paintingId == b.paintingId
  }

  ghost predicate CartValid(s: Shop) {
    && (forall id :: id in s.cart ==> id < s.nextCart && s.cart[id].paintingId in s.paintings)
    && (forall a, b :: a in s.cart && b in s.cart && SameKey(s.cart[a], s.cart[b]) ==> a == b)
  }

  function ItemsTotal(items: seq<Item>): int {
    if items == [] then 0
    else ItemsTotal(items[..|items| - 1]) + items[|items| - 1].price * items[|items| - 1].quantity
  }

  // An order's money: the goods plus both fees, to the cent. A commission's
  // total is an offer, never below the original's price.
  ghost predicate MoneyAddsUp(order: Order) {
    if order.isCommission then
      && |order.items| == 1 && order.items[0].quantity == 1
      && order.deliveryCost == 0 && order.codFee == 0
      && order.total >= order.items[0].price
    else
      order.total == ItemsTotal(order.items) + order.deliveryCost + order.codFee
  }

  ghost predicate OrderValid(ps: Paintings, order: Order) {
    && Distinct(order.items) && Ids(order.items) <= ps.Keys && MoneyAddsUp(order)
    && forall item :: item in order.items ==> item.quantity >= 0
  }

  ghost predicate OrdersValid(s: Shop) {
    forall id :: id in s.orders ==> id < s.nextOrder && OrderValid(s.paintings, s.orders[id])
  }

  ghost predicate PaintingsValid(s: Shop) {
    NoDebt(s.paintings) && forall p :: p in s.paintings ==> p < s.nextPainting
  }

  ghost predicate NoNegativeRow(s: Shop) {
    forall id :: id in s.cart ==> s.cart[id].quantity >= 0
  }

  ghost predicate Valid(s: Shop) {
    CartValid(s) && NoNegativeRow(s) && OrdersValid(s) && PaintingsValid(s)
  }

  // ---- cart queries ----

  // The rows of one identity with ids below n, in id order.
  function CartLines(cart: map<nat, CartRow>, n: nat, who: Identity): seq<Item> {
    if n == 0 then []
    else if n - 1 in cart && cart[n - 1].owner == who then
      CartLines(cart, n - 1, who) + [Item(cart[n - 1].paintingId, cart[n - 1].quantity, 0)]
    else
      CartLines(cart, n - 1, who)
  }

  // The row an identity holds for a painting, if any.
  function RowOf(cart: map<nat, CartRow>, n: nat, who: Identity, p: int): (r: Option<nat>)
    ensures r.Some? ==> r.value < n && r.value in cart
                        && cart[r.value].owner == who && cart[r.value].paintingId == p
    ensures r.None? ==> forall id :: id < n && id in cart ==> !(cart[id].owner == who && cart[id].paintingId == p)
  {
    if n == 0 then None
    else if n - 1 in cart && cart[n - 1].owner == who && cart[n - 1].paintingId == p then Some(n - 1)
    else RowOf(cart, n - 1, who, p)
  }

  // How many copies an identity has in the cart; None when it has no row.
  function InCart(s: Shop, who: Identity, p: int): Option<int> {
    match RowOf(s.cart, s.nextCart, who, p)
    case Some(id) => Some(s.cart[id].quantity)
    case None => None
  }

  lemma InCartIs(s: Shop, id: nat)
    requires CartValid(s) && id in s.cart
    ensures RowOf(s.cart, s.nextCart, s.cart[id].owner, s.cart[id].paintingId) == Some(id)
  {
  }

  // One row per (identity, painting) means an order never has two lines for
  // the same painting.
  lemma {:induction false} CartLinesDistinct(s: Shop, n: nat, who: Identity)
    requires CartValid(s)
    ensures Distinct(CartLines(s.cart, n, who))
    ensures forall item :: item in CartLines(s.cart, n, who) ==>
              exists id :: id < n && id in s.cart && s.cart[id].owner == who
                           && item == Item(s.cart[id].paintingId, s.cart[id].quantity, 0)
  {
    if n > 0 {
      CartLinesDistinct(s, n - 1, who);
      var before := CartLines(s.cart, n - 1, who);
      if n - 1 in s.cart && s.cart[n - 1].owner == who {
        forall item | item in before ensures item.paintingId != s.cart[n - 1].paintingId {
          var id :| id < n - 1 && id in s.cart && s.cart[id].owner == who
                    && item == Item(s.cart[id].paintingId, s.cart[id].quantity, 0);
          assert !SameKey(s.cart[id], s.cart[n - 1]);
        }
      }
    }
  }

  lemma {:induction false} CartLinesComplete(s: Shop, n: nat, who: Identity, id: nat)
    requires id < n && id in s.cart && s.cart[id].owner == who
    ensures Item(s.cart[id].paintingId, s.cart[id].quantity, 0) in CartLines(s.cart, n, who)
  {
    if id < n - 1 {
      CartLinesComplete(s, n - 1, who, id);
    }
  }

  function WithoutCartOf(cart: map<nat, CartRow>, who: Identity): map<nat, CartRow> {
    map id | id in cart && cart[id].owner != who :: cart[id]
  }

  // ---- what orders hold ----

  // An order that has copies of real paintings in its hands.
  predicate HoldsStock(order: Order) {
    !order.isCommission && order.status != Cancelled
  }

  function HeldBy(orders: map<nat, Order>, id: nat, p: int): int {
    if id in orders && HoldsStock(orders[id]) then Qty(orders[id].items, p) else 0
  }

  function HeldByAll(orders: map<nat, Order>, n: nat, p: int): int {
    if n == 0 then 0 else HeldByAll(orders, n - 1, p) + HeldBy(orders, n - 1, p)
  }

  // Everything there is of painting p: on the shelf, or in a live order.
  function CopiesOf(s: Shop, p: int): int {
    (if p in s.paintings then s.paintings[p].amount else 0) + HeldByAll(s.orders, s.nextOrder, p)
  }

  lemma {:induction false} HeldChangesByOne(before: map<nat, Order>, after: map<nat, Order>, n: nat, id: nat, p: int)
    requires forall k :: k != id ==> HeldBy(after, k, p) == HeldBy(before, k, p)
    ensures HeldByAll(after, n, p)
            == HeldByAll(before, n, p) + if id < n then HeldBy(after, id, p) - HeldBy(before, id, p) else 0
  {
    if n > 0 {
      HeldChangesByOne(before, after, n - 1, id, p);
    }
  }

  lemma {:induction false} HeldUnchanged(before: map<nat, Order>, after: map<nat, Order>, n: nat, p: int)
    requires forall k :: HeldBy(after, k, p) == HeldBy(before, k, p)
    ensures HeldByAll(after, n, p) == HeldByAll(before, n, p)
  {
    if n > 0 {
      HeldUnchanged(before, after, n - 1, p);
    }
  }

  // A request either leaves the tables exactly as the rule says or exactly
  // as they were: a transaction that throws is rolled back whole.
  ghost predicate Follows(rule: Result<Shop, Rejection>, before: Shop, after: Shop, error: Option<Rejection>) {
    match rule
    case Ok(s) => error == None && after == s
    case Err(e) => error == Some(e) && after == before
  }
}
