/** What one transaction does to the painting rows, stated row by row. */
module Stock {
  import opened Entities
  import opened StockLines

  type Paintings = map<int, Painting>

  // The copies of painting p that these lines speak for.
  function Qty(items: seq<Item>, p: int): int {
    if items == [] then 0
    else Qty(items[..|items| - 1], p)
         + if items[|items| - 1].paintingId == p then items[|items| - 1].quantity else 0
  }

  // A row after q copies left it: checkout and un-cancel share this arithmetic.
  function Sell(painting: Painting, q: int): Painting {
    if painting.amount - q <= 0
    then painting.(amount := 0, isAvailable := false)
    else painting.(amount := painting.amount - q)
  }

  // A row after q copies came back to it.
  function Restock(painting: Painting, q: int): Painting {
    painting.(amount := painting.amount + q, isAvailable := true)
  }

  // The check checkout makes on a locked row.
  predicate CanSell(ps: Paintings, item: Item) {
    item.paintingId in ps && ps[item.paintingId].isAvailable && item.quantity <= ps[item.paintingId].amount
  }

  // The check un-cancelling makes: enough copies, whether or not on sale.
  predicate CanTakeBack(ps: Paintings, item: Item) {
    item.paintingId in ps && item.quantity <= ps[item.paintingId].amount
  }

  predicate CanSellAll(ps: Paintings, items: seq<Item>) {
    forall item :: item in items ==> CanSell(ps, item)
  }

  predicate CanTakeBackAll(ps: Paintings, items: seq<Item>) {
    forall item :: item in items ==> CanTakeBack(ps, item)
  }

  function Taken(ps: Paintings, items: seq<Item>): Paintings {
    map p | p in ps :: if p in Ids(items) then Sell(ps[p], Qty(items, p)) else ps[p]
  }

  function Restored(ps: Paintings, items: seq<Item>): Paintings {
    map p | p in ps :: if p in Ids(items) then Restock(ps[p], Qty(items, p)) else ps[p]
  }

  ghost predicate NoDebt(ps: Paintings) {
    forall p :: p in ps ==> ps[p].amount >= 0
  }

  // ---- Qty ----

  lemma {:induction false} QtyAbsent(items: seq<Item>, p: int)
    requires p !in Ids(items)
    ensures Qty(items, p) == 0
  {
    if items != [] {
      var init, last := items[..|items| - 1], items[|items| - 1];
      assert items == init + [last];
      assert last in items && last.paintingId in Ids(items);
      assert Ids(init) <= Ids(items);
      QtyAbsent(init, p);
    }
  }

  lemma {:induction false} QtyAt(items: seq<Item>, i: nat)
    requires Distinct(items) && i < |items|
    ensures Qty(items, items[i].paintingId) == items[i].quantity
  {
    var init, last := items[..|items| - 1], items[|items| - 1];
    assert items == init + [last];
    if i == |init| {
      QtyAbsent(init, last.paintingId);
    } else {
      QtyAt(init, i);
    }
  }

  lemma QtyIn(items: seq<Item>, item: Item)
    requires Distinct(items) && item in items
    ensures Qty(items, item.paintingId) == item.quantity
  {
    var i :| 0 <= i < |items| && items[i] == item;
    QtyAt(items, i);
  }

  lemma QtyRearranged(a: seq<Item>, b: seq<Item>, p: int)
    requires Distinct(a) && Distinct(b) && multiset(a) == multiset(b)
    ensures Qty(a, p) == Qty(b, p)
  {
    SameItems(a, b);
    if p in Ids(a) {
      var item :| item in a && item.paintingId == p;
      QtyIn(a, item);
      QtyIn(b, item);
    } else {
      QtyAbsent(a, p);
      QtyAbsent(b, p);
    }
  }

  // Prices are looked up after the lines were read; quantities do not move.
  lemma {:induction false} QtyIgnoresPrice(a: seq<Item>, b: seq<Item>, p: int)
    requires |a| == |b|
    requires forall i :: 0 <= i < |a| ==> a[i].paintingId == b[i].paintingId && a[i].quantity == b[i].quantity
    ensures Qty(a, p) == Qty(b, p)
  {
    if a != [] {
      QtyIgnoresPrice(a[..|a| - 1], b[..|b| - 1], p);
    }
  }

  // ---- the two moves do not depend on the order of the lines ----

  lemma MovesRearranged(ps: Paintings, a: seq<Item>, b: seq<Item>)
    requires Distinct(a) && Distinct(b) && multiset(a) == multiset(b)
    ensures Taken(ps, a) == Taken(ps, b) && Restored(ps, a) == Restored(ps, b)
    ensures CanSellAll(ps, a) <==> CanSellAll(ps, b)
    ensures CanTakeBackAll(ps, a) <==> CanTakeBackAll(ps, b)
  {
    SameItems(a, b);
    forall p | p in ps ensures Qty(a, p) == Qty(b, p) {
      QtyRearranged(a, b, p);
    }
  }

  // ---- one more line ----

  lemma OneMoreLine(ps: Paintings, items: seq<Item>, n: nat)
    requires Distinct(items) && n < |items|
    ensures items[n].paintingId !in Ids(items[..n])
    ensures Qty(items[..n + 1], items[n].paintingId) == items[n].quantity
    ensures Ids(items[..n + 1]) == Ids(items[..n]) + {items[n].paintingId}
    ensures forall r :: r != items[n].paintingId ==> Qty(items[..n + 1], r) == Qty(items[..n], r)
  {
    var more := items[..n + 1];
    assert more[..|more| - 1] == items[..n];
    assert more == items[..n] + [items[n]];
    QtyAt(more, n);
  }

  lemma TakenOneMore(ps: Paintings, items: seq<Item>, n: nat)
    requires Distinct(items) && n < |items| && items[n].paintingId in ps
    ensures var p := items[n].paintingId;
            Taken(ps, items[..n])[p] == ps[p]
            && Taken(ps, items[..n + 1]) == Taken(ps, items[..n])[p := Sell(ps[p], items[n].quantity)]
  {
    OneMoreLine(ps, items, n);
  }

  lemma RestoredOneMore(ps: Paintings, items: seq<Item>, n: nat)
    requires Distinct(items) && n < |items|
    ensures var p := items[n].paintingId;
            if p in ps
            then Restored(ps, items[..n])[p] == ps[p]
                 && Restored(ps, items[..n + 1]) == Restored(ps, items[..n])[p := Restock(ps[p], items[n].quantity)]
            else Restored(ps, items[..n + 1]) == Restored(ps, items[..n])
  {
    OneMoreLine(ps, items, n);
  }

  // ---- what the moves mean ----

  // A checkout or un-cancel that passed its checks takes exactly what the
  // lines say from every row: the clamp at zero is never what decides.
  lemma TakenIsExact(ps: Paintings, items: seq<Item>, p: int)
    requires Distinct(items) && CanTakeBackAll(ps, items) && p in ps
    ensures Taken(ps, items)[p].amount == ps[p].amount - Qty(items, p)
    ensures Taken(ps, items)[p].price == ps[p].price
    ensures NoDebt(ps) ==> NoDebt(Taken(ps, items))
  {
  }

  lemma RestoredIsExact(ps: Paintings, items: seq<Item>, p: int)
    requires p in ps
    ensures Restored(ps, items)[p].amount == ps[p].amount + Qty(items, p)
    ensures Restored(ps, items)[p].price == ps[p].price
  {
  }

  // With a line repeated, each copy of it passes the same check against the
  // same row and the clamp swallows the shortfall: one copy pays for two.
  lemma RepeatedLineWouldOversell(ps: Paintings)
    requires 7 in ps && ps[7].amount == 1
    ensures var items := [Item(7, 1, 0), Item(7, 1, 0)];
            CanTakeBackAll(ps, items) && Taken(ps, items)[7].amount != ps[7].amount - Qty(items, 7)
  {
  }

  // Cancelling and then un-cancelling always succeeds and gives every amount
  // back. What it does not give back is a withdrawal from sale.
  lemma RestoreThenTakeBack(ps: Paintings, items: seq<Item>)
    requires Distinct(items) && Ids(items) <= ps.Keys && NoDebt(ps)
    ensures CanTakeBackAll(Restored(ps, items), items)
    ensures forall p :: p in ps ==>
              Taken(Restored(ps, items), items)[p]
              == if p in Ids(items) then ps[p].(isAvailable := ps[p].amount > 0) else ps[p]
  {
    var back := Restored(ps, items);
    forall item | item in items ensures CanTakeBack(back, item) {
      assert item.paintingId in Ids(items);
      QtyIn(items, item);
    }
  }

  // The other way round: un-cancelling and cancelling again.
  lemma TakeBackThenRestore(ps: Paintings, items: seq<Item>, p: int)
    requires Distinct(items) && CanTakeBackAll(ps, items) && p in ps
    ensures Restored(Taken(ps, items), items)[p].amount == ps[p].amount
  {
    TakenIsExact(ps, items, p);
    RestoredIsExact(Taken(ps, items), items, p);
  }
}
