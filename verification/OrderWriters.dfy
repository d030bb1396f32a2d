/** Everything that writes an order row, each reading it first and writing
    later, with anything in between: status changes, archiving, payment status,
    payment proofs and deletion. A save writes the whole row as it was read. */
module OrderWriters {
  import opened Wrappers
  import opened Entities
  import opened StockLines
  import opened Stock
  import opened Tables
  import O = OrderRules
  import P = PaintingRules
  import M = ShopMachine
  import R = RowLockRuns
  import L = RowLocks
  import C = CartRules
  import Receipts

  // `Annotate` sets a column the model does not have: a payment's status, or
  // the address of its proof.
  datatype Task =
    | SetStatus(status: Status, waybill: Option<string>)
    | CancelOwn(who: Identity)
    | Archive
    | Annotate
    | Remove

  // A request between its read and its write.
  datatype Ticket = Ticket(id: nat, read: Order, task: Task)

  datatype Desk = Desk(shop: Shop, open: map<nat, Ticket>)

  // Requests that do not write order rows by their id take effect whole. A
  // ticket may be dropped at any time.
  datatype Label = Read(t: nat, id: nat, task: Task) | Write(t: nat) | Drop(t: nat) | Whole(e: M.Event)

  // The checks each request makes on what it read.
  predicate Passes(read: Order, task: Task) {
    match task
    case SetStatus(status, waybill) => read.status != status && (status == Shipped ==> waybill.Some?)
    case CancelOwn(who) => read.owner == Some(who) && (read.status == Pending || read.status == Confirmed)
    case Archive => read.status == Completed
    case Annotate => true
    case Remove => read.status == Cancelled
  }

  predicate WritesById(e: M.Event) {
    e.Cancel? || e.UpdateStatus? || e.RemoveOrder? || e.ArchiveOrder?
  }

  function Stamped(read: Order, status: Status, waybill: Option<string>): Order {
    if status == Shipped then read.(trackingNumber := waybill) else read
  }

  // Saving a row that has been deleted puts it back, unless a painting it
  // names has gone too. Deleting one that has been deleted does nothing.
  function Written(s: Shop, k: Ticket): Result<Shop, Rejection> {
    if k.task == Remove then Ok(s.(orders := s.orders - {k.id}))
    else if !(Ids(k.read.items) <= s.paintings.Keys) then Err(NotFound)
    else
      match k.task
      case SetStatus(status, waybill) => R.StatusWrite(s, k.id, Stamped(k.read, status, waybill), status)
      case CancelOwn(_) => R.StatusWrite(s, k.id, k.read, Cancelled)
      case Archive => Ok(s.(orders := s.orders[k.id := k.read.(isArchived := true)]))
      case _ => Ok(s.(orders := s.orders[k.id := k.read]))
  }

  predicate Enabled(d: Desk, l: Label) {
    match l
    case Read(t, id, task) => t !in d.open && id in d.shop.orders && Passes(d.shop.orders[id], task)
    case Write(t) => t in d.open
    case Drop(t) => t in d.open
    case Whole(e) => M.WellFormed(e) && !WritesById(e)
  }

  function Step(d: Desk, l: Label): Desk
    requires Enabled(d, l)
  {
    match l
    case Read(t, id, task) => d.(open := d.open[t := Ticket(id, d.shop.orders[id], task)])
    case Write(t) =>
      Desk(match Written(d.shop, d.open[t]) { case Ok(after) => after case Err(_) => d.shop }, d.open - {t})
    case Drop(t) => d.(open := d.open - {t})
    case Whole(e) => d.(shop := M.Apply(d.shop, e))
  }

  predicate CanRun(d: Desk, ls: seq<Label>)
    decreases |ls|
  {
    ls == [] || (Enabled(d, ls[0]) && CanRun(Step(d, ls[0]), ls[1..]))
  }

  function After(d: Desk, ls: seq<Label>): Desk
    requires CanRun(d, ls)
    decreases |ls|
  {
    if ls == [] then d else After(Step(d, ls[0]), ls[1..])
  }

  // Read and written with nothing in between, each is its request.
  lemma AtOnceIsRequest(s: Shop, id: nat, status: Status, waybill: Option<string>)
    requires Valid(s) && id in s.orders
    ensures var read := s.orders[id];
            && (Passes(read, SetStatus(status, waybill)) ==>
                  Written(s, Ticket(id, read, SetStatus(status, waybill))) == O.UpdateStatus(s, id, status, waybill))
            && (forall who :: Passes(read, CancelOwn(who)) ==>
                  Written(s, Ticket(id, read, CancelOwn(who))) == O.Cancel(s, who, id))
            && (Passes(read, Archive) ==> Written(s, Ticket(id, read, Archive)) == O.ArchiveOrder(s, id))
            && (Passes(read, Remove) ==> Written(s, Ticket(id, read, Remove)) == O.RemoveOrder(s, id))
  {
    assert OrderValid(s.paintings, s.orders[id]);
  }

  // A cancel's or un-cancel's write is a whole transaction, and in any
  // interleaving its commit is this.
  lemma CommitIsWritten(w: L.World, t: nat, k: Ticket)
    requires L.Inv(w) && L.Enabled(w, L.Commit(t)) && Ids(k.read.items) <= w.shop.paintings.Keys
    requires match k.task
             case SetStatus(status, waybill) =>
               if status == Cancelled then k.read.status != Cancelled && w.txns[t].op == L.Cancel(None, k.id, k.read)
               else k.read.status == Cancelled && w.txns[t].op == L.Uncancel(k.id, k.read, status, waybill)
             case CancelOwn(who) => k.read.status != Cancelled && w.txns[t].op == L.Cancel(Some(who), k.id, k.read)
             case _ => false
    ensures Written(w.shop, k) == Ok(L.Step(w, L.Commit(t)).shop)
  {
    hide L.Inv, L.Step, L.Enabled;
    L.StepRefines(w, L.Commit(t));
  }

  // ---- what a write does to the copies ----

  function HeldIn(order: Order, p: int): int {
    if HoldsStock(order) then Qty(order.items, p) else 0
  }

  predicate SameLines(a: Order, b: Order) {
    a.items == b.items && a.isCommission == b.isCommission
  }

  // What is true of any row that was ever in the table.
  ghost predicate RowShape(order: Order) {
    Distinct(order.items) && MoneyAddsUp(order) && forall item :: item in order.items ==> item.quantity >= 0
  }

  ghost predicate TicketOk(s: Shop, k: Ticket) {
    && k.id < s.nextOrder && RowShape(k.read) && Passes(k.read, k.task)
    && (k.id in s.orders ==> SameLines(k.read, s.orders[k.id]))
  }

  ghost predicate Sound(d: Desk) {
    && Valid(d.shop)
    && (forall t :: t in d.open ==> TicketOk(d.shop, d.open[t]))
    && (forall t, u :: t in d.open && u in d.open && d.open[t].id == d.open[u].id ==>
          SameLines(d.open[t].read, d.open[u].read))
  }

  lemma SaveMoves(s: Shop, id: nat, row: Order, p: int)
    requires id < s.nextOrder
    ensures CopiesOf(s.(orders := s.orders[id := row]), p) == CopiesOf(s, p) + HeldIn(row, p) - HeldBy(s.orders, id, p)
  {
    HeldChangesByOne(s.orders, s.orders[id := row], s.nextOrder, id, p);
  }

  // A cancel moves the lines onto the shelf, an un-cancel off it; either way
  // the sum is short or over by what the read was.
  lemma StatusMoves(s: Shop, id: nat, read: Order, status: Status, p: int)
    requires id < s.nextOrder && Distinct(read.items) && Ids(read.items) <= s.paintings.Keys && read.status != status
    requires R.StatusWrite(s, id, read, status).Ok?
    ensures CopiesOf(R.StatusWrite(s, id, read, status).value, p)
            == CopiesOf(s, p) + HeldIn(read, p) - HeldBy(s.orders, id, p)
  {
    hide Taken, Restored, Distinct, Qty;
    SaveMoves(s, id, read.(status := status), p);
    if p !in s.paintings {
      QtyAbsent(read.items, p);
    } else if status == Cancelled {
      RestoredIsExact(s.paintings, read.items, p);
    } else if read.status == Cancelled && !read.isCommission {
      TakenIsExact(s.paintings, read.items, p);
    }
    SameKeys(s.paintings, read.items);
  }

  lemma SameKeys(ps: Paintings, items: seq<Item>)
    ensures Taken(ps, items).Keys == ps.Keys && Restored(ps, items).Keys == ps.Keys
  {
  }

  // One rule for all of them: the copies move by what the order held when it
  // was read, less what it holds now.
  lemma WriteMoves(s: Shop, k: Ticket, p: int)
    requires TicketOk(s, k) && Written(s, k).Ok?
    ensures CopiesOf(Written(s, k).value, p) == CopiesOf(s, p) + HeldIn(k.read, p) - HeldBy(s.orders, k.id, p)
  {
    hide CopiesOf, R.StatusWrite, Qty, Distinct;
    ShapeIsDistinct(k.read);
    match k.task {
      case SetStatus(status, waybill) => StatusMoves(s, k.id, Stamped(k.read, status, waybill), status, p);
      case CancelOwn(_) => StatusMoves(s, k.id, k.read, Cancelled, p);
      case Archive => SaveMoves(s, k.id, k.read.(isArchived := true), p);
      case Annotate => SaveMoves(s, k.id, k.read, p);
      case Remove => DeleteMoves(s, k.id, p);
    }
  }

  lemma DeleteMoves(s: Shop, id: nat, p: int)
    requires id < s.nextOrder
    ensures CopiesOf(s.(orders := s.orders - {id}), p) == CopiesOf(s, p) - HeldBy(s.orders, id, p)
  {
    HeldChangesByOne(s.orders, s.orders - {id}, s.nextOrder, id, p);
  }

  lemma ShapeIsDistinct(order: Order)
    requires RowShape(order)
    ensures Distinct(order.items)
  {
  }

  predicate Holding(s: Shop, id: nat) {
    id in s.orders && HoldsStock(s.orders[id])
  }

  // The order held copies when it was read and holds none now, or the other
  // way round; and they are not none.
  ghost predicate OutOfDate(s: Shop, k: Ticket) {
    HoldsStock(k.read) != Holding(s, k.id) && exists item :: item in k.read.items && item.quantity != 0
  }

  // A write of any kind, whatever it sets, keeps the copies of every painting
  // if and only if what it read is not out of date in this sense.
  lemma WriteConservesExactlyWhen(s: Shop, k: Ticket)
    requires Valid(s) && TicketOk(s, k) && Written(s, k).Ok?
    ensures (forall p :: CopiesOf(Written(s, k).value, p) == CopiesOf(s, p)) <==> !OutOfDate(s, k)
  {
    forall p
      ensures CopiesOf(Written(s, k).value, p) - CopiesOf(s, p) == HeldIn(k.read, p) - HeldBy(s.orders, k.id, p)
    {
      WriteMoves(s, k, p);
    }
    hide CopiesOf, Written, Valid;
    if OutOfDate(s, k) {
      var item :| item in k.read.items && item.quantity != 0;
      QtyIn(k.read.items, item);
      assert HeldIn(k.read, item.paintingId) != HeldBy(s.orders, k.id, item.paintingId);
    } else if HoldsStock(k.read) != Holding(s, k.id) {
      forall p ensures Qty(k.read.items, p) == 0 {
        NothingInLines(k.read.items, p);
      }
    }
  }

  lemma {:induction false} NothingInLines(items: seq<Item>, p: int)
    requires forall item :: item in items ==> item.quantity == 0
    ensures Qty(items, p) == 0
  {
    if items != [] {
      assert items[|items| - 1] in items;
      NothingInLines(items[..|items| - 1], p);
    }
  }

  // ---- every step keeps the tables and the tickets in order ----

  // Requests taking effect whole touch the rows there are only by handing
  // them to someone else.
  lemma WholeKeepsOrders(s: Shop, e: M.Event)
    requires !WritesById(e)
    ensures var after := M.Apply(s, e);
            && s.nextOrder <= after.nextOrder
            && forall id :: id < s.nextOrder ==>
                 && (id in after.orders <==> id in s.orders)
                 && (id in s.orders ==> after.orders[id].(owner := None) == s.orders[id].(owner := None))
  {
    hide C.AddItem, C.UpdateItem, C.MergeGuestCart, StockOrder, CartLines, CanSellAll, Taken, O.ToCents, P.Patched;
    hide C.RemoveItem, WithoutCartOf, P.Referenced, ItemsTotal;
    match e {
      case AddItem(who, p, quantity) => CartAlone(s, e);
      case UpdateItem(who, p, quantity) => CartAlone(s, e);
      case RemoveItem(who, p) => CartAlone(s, e);
      case MergeGuestCart(user, token) => CartAlone(s, e);
      case _ =>
    }
  }

  lemma CartAlone(s: Shop, e: M.Event)
    requires e.AddItem? || e.UpdateItem? || e.RemoveItem? || e.MergeGuestCart?
    ensures M.Apply(s, e).orders == s.orders && M.Apply(s, e).nextOrder == s.nextOrder
  {
  }

  lemma WrittenIsValid(s: Shop, k: Ticket)
    requires Valid(s) && TicketOk(s, k) && Written(s, k).Ok?
    ensures Valid(Written(s, k).value)
  {
    hide Distinct, Ids, MoneyAddsUp, Qty, CartValid, Written, R.StatusWrite, NoDebt;
    var after := Written(s, k).value;
    WrittenParts(s, k);
    if k.task != Remove {
      SameMoney(k.read, after.orders[k.id]);
    }
    WrittenShelf(s, k);
    SameCart(s, after);
  }

  // The row a write leaves, and the parts of the tables it leaves alone.
  lemma WrittenParts(s: Shop, k: Ticket)
    requires TicketOk(s, k) && Written(s, k).Ok?
    ensures var after := Written(s, k).value;
            && after.cart == s.cart && after.nextCart == s.nextCart && after.nextPainting == s.nextPainting
            && after.nextOrder == s.nextOrder && after.paintings.Keys == s.paintings.Keys
            && (if k.task == Remove then after.orders == s.orders - {k.id}
                else && Ids(k.read.items) <= s.paintings.Keys && k.id in after.orders
                     && after.orders == s.orders[k.id := after.orders[k.id]]
                     && after.orders[k.id] == k.read.(status := after.orders[k.id].status,
                                                      isArchived := after.orders[k.id].isArchived,
                                                      trackingNumber := after.orders[k.id].trackingNumber))
  {
    hide RowShape, Ids, R.StatusWrite;
    match k.task {
      case SetStatus(status, waybill) => StatusParts(s, k.id, Stamped(k.read, status, waybill), status);
      case CancelOwn(_) => StatusParts(s, k.id, k.read, Cancelled);
      case _ =>
    }
  }

  lemma StatusParts(s: Shop, id: nat, read: Order, status: Status)
    requires read.status != status && R.StatusWrite(s, id, read, status).Ok?
    ensures var after := R.StatusWrite(s, id, read, status).value;
            && after == s.(paintings := after.paintings, orders := s.orders[id := read.(status := status)])
            && after.paintings.Keys == s.paintings.Keys
  {
    SameKeys(s.paintings, read.items);
    hide Taken, Restored;
  }

  lemma WrittenShelf(s: Shop, k: Ticket)
    requires NoDebt(s.paintings) && TicketOk(s, k) && Written(s, k).Ok?
    ensures NoDebt(Written(s, k).value.paintings)
  {
    hide Distinct, MoneyAddsUp;
    forall p ensures Qty(k.read.items, p) >= 0 {
      M.QtyNotNegative(k.read.items, p);
    }
  }

  lemma SameMoney(a: Order, b: Order)
    requires a.items == b.items && a.isCommission == b.isCommission && a.total == b.total
    requires a.deliveryCost == b.deliveryCost && a.codFee == b.codFee
    ensures MoneyAddsUp(a) <==> MoneyAddsUp(b)
  {
  }

  lemma SameCart(s: Shop, after: Shop)
    requires CartValid(s) && after.cart == s.cart && after.nextCart == s.nextCart
             && after.paintings.Keys == s.paintings.Keys
    ensures CartValid(after)
  {
  }

  lemma WrittenRow(s: Shop, k: Ticket, id: nat)
    requires Written(s, k).Ok?
    ensures var after := Written(s, k).value;
            && after.nextOrder == s.nextOrder
            && (id != k.id ==>
                 (id in after.orders <==> id in s.orders) && (id in s.orders ==> after.orders[id] == s.orders[id]))
            && (k.id in after.orders && k.task != Remove ==> SameLines(after.orders[k.id], k.read) || after == s)
            && (k.task == Remove ==> k.id !in after.orders)
  {
  }

  lemma StepKeepsSound(d: Desk, l: Label)
    requires Sound(d) && Enabled(d, l)
    ensures Sound(Step(d, l))
  {
    hide Valid, RowShape, Written, M.Apply;
    match l {
      case Read(t, id, task) => ReadIsOk(d.shop, id, task);
      case Write(t) =>
        if Written(d.shop, d.open[t]).Ok? {
          WrittenIsValid(d.shop, d.open[t]);
          forall u | u in d.open ensures TicketOk(Written(d.shop, d.open[t]).value, d.open[u]) {
            WrittenRow(d.shop, d.open[t], d.open[u].id);
          }
        }
      case Drop(t) =>
      case Whole(e) =>
        M.ValidKept(d.shop, e);
        WholeKeepsOrders(d.shop, e);
    }
  }

  lemma ReadIsOk(s: Shop, id: nat, task: Task)
    requires Valid(s) && id in s.orders && Passes(s.orders[id], task)
    ensures TicketOk(s, Ticket(id, s.orders[id], task))
  {
    assert OrderValid(s.paintings, s.orders[id]);
  }

  // What a step does to the copies of painting p: what the catalogue brings
  // in or writes off, and what a write's read was out by.
  function Moved(d: Desk, l: Label, p: int): int
    requires Enabled(d, l)
  {
    match l
    case Whole(e) => M.Adjustment(d.shop, e, p)
    case Write(t) =>
      if Written(d.shop, d.open[t]).Ok?
      then HeldIn(d.open[t].read, p) - HeldBy(d.shop.orders, d.open[t].id, p)
      else 0
    case _ => 0
  }

  lemma StepMoves(d: Desk, l: Label, p: int)
    requires Sound(d) && Enabled(d, l)
    ensures CopiesOf(Step(d, l).shop, p) == CopiesOf(d.shop, p) + Moved(d, l, p)
  {
    hide CopiesOf, Valid, Written, M.Apply, M.Adjustment;
    match l {
      case Write(t) =>
        if Written(d.shop, d.open[t]).Ok? {
          WriteMoves(d.shop, d.open[t], p);
        }
      case Whole(e) => M.Conserved(d.shop, e, p);
      case _ =>
    }
  }

  // ---- when they keep out of each other's way ----

  // A cancel or an un-cancel of an order with copies.
  predicate Crosses(k: Ticket) {
    !k.read.isCommission && match k.task
                            case SetStatus(status, _) => (k.read.status == Cancelled) != (status == Cancelled)
                            case CancelOwn(_) => true
                            case _ => false
  }

  // While an order is being cancelled or brought back, nothing else that
  // writes its row begins; any number of other writers may overlap.
  predicate WaitsItsTurn(d: Desk, l: Label) {
    l.Read? && l.id in d.shop.orders ==>
      forall t :: t in d.open && d.open[t].id == l.id ==>
        !Crosses(d.open[t]) && !Crosses(Ticket(l.id, d.shop.orders[l.id], l.task))
  }

  ghost predicate Polite(d: Desk, ls: seq<Label>)
    requires CanRun(d, ls)
    decreases |ls|
  {
    ls == [] || (WaitsItsTurn(d, ls[0]) && Polite(Step(d, ls[0]), ls[1..]))
  }

  ghost predicate Calm(d: Desk) {
    && Sound(d)
    && (forall t :: t in d.open ==> HoldsStock(d.open[t].read) == Holding(d.shop, d.open[t].id))
    && (forall t, u :: t in d.open && u in d.open && t != u && d.open[t].id == d.open[u].id ==> !Crosses(d.open[t]))
  }

  // A write that crosses nothing leaves an order holding what it was read to.
  lemma OthersUnmoved(s: Shop, k: Ticket)
    requires Valid(s) && TicketOk(s, k) && Written(s, k).Ok? && !Crosses(k)
    ensures Holding(Written(s, k).value, k.id) == HoldsStock(k.read)
  {
  }

  lemma CalmKept(d: Desk, l: Label)
    requires Calm(d) && Enabled(d, l) && WaitsItsTurn(d, l)
    ensures Calm(Step(d, l))
  {
    hide Valid, TicketOk, Written, M.Apply, Crosses, HoldsStock;
    var after := Step(d, l);
    StepKeepsSound(d, l);
    match l {
      case Write(t) =>
        var k := d.open[t];
        if Written(d.shop, k).Ok? {
          forall u | u in after.open ensures HoldsStock(d.open[u].read) == Holding(after.shop, d.open[u].id) {
            if d.open[u].id == k.id {
              OthersUnmoved(d.shop, k);
            } else {
              WrittenRow(d.shop, k, d.open[u].id);
            }
          }
        }
      case Whole(e) =>
        forall u | u in after.open ensures HoldsStock(d.open[u].read) == Holding(after.shop, d.open[u].id) {
          WholeKeepsHolding(d.shop, e, d.open[u]);
        }
      case _ =>
    }
  }

  lemma WholeKeepsHolding(s: Shop, e: M.Event, k: Ticket)
    requires Valid(s) && !WritesById(e) && TicketOk(s, k)
    ensures Holding(M.Apply(s, e), k.id) == Holding(s, k.id)
  {
    WholeKeepsOrders(s, e);
    hide M.Apply, Valid;
    if k.id in s.orders {
      assert M.Apply(s, e).orders[k.id].(owner := None) == s.orders[k.id].(owner := None);
    }
  }

  function Adjustments(d: Desk, ls: seq<Label>, p: int): int
    requires CanRun(d, ls)
    decreases |ls|
  {
    if ls == [] then 0
    else (if ls[0].Whole? then M.Adjustment(d.shop, ls[0].e, p) else 0) + Adjustments(Step(d, ls[0]), ls[1..], p)
  }

  // Then, over any run of all the writers there are, no copy of any painting
  // appears or vanishes.
  lemma {:induction false} WritersConserve(d: Desk, ls: seq<Label>, p: int)
    requires Calm(d) && CanRun(d, ls) && Polite(d, ls)
    ensures Calm(After(d, ls))
    ensures CopiesOf(After(d, ls).shop, p) == CopiesOf(d.shop, p) + Adjustments(d, ls, p)
    decreases |ls|
  {
    hide CopiesOf, Enabled, Step, WaitsItsTurn, Moved;
    if ls != [] {
      StepMoves(d, ls[0], p);
      CalmMoves(d, ls[0], p);
      CalmKept(d, ls[0]);
      WritersConserve(Step(d, ls[0]), ls[1..], p);
    }
  }

  lemma CalmMoves(d: Desk, l: Label, p: int)
    requires Calm(d) && Enabled(d, l)
    ensures Moved(d, l, p) == if l.Whole? then M.Adjustment(d.shop, l.e, p) else 0
  {
    hide Valid, Written, M.Adjustment;
    if l.Write? {
      assert TicketOk(d.shop, d.open[l.t]);
    }
  }

  lemma NobodyIsCalm(s: Shop)
    requires Valid(s)
    ensures Calm(Desk(s, map[]))
  {
  }

  // ---- and when they do not ----

  lemma FourSteps(d: Desk, a: Label, b: Label, c: Label, e: Label)
    requires Enabled(d, a) && Enabled(Step(d, a), b) && Enabled(Step(Step(d, a), b), c)
    requires Enabled(Step(Step(Step(d, a), b), c), e)
    ensures CanRun(d, [a, b, c, e]) && After(d, [a, b, c, e]) == Step(Step(Step(Step(d, a), b), c), e)
  {
    hide Enabled, Step;
    var d1, d2, d3 := Step(d, a), Step(Step(d, a), b), Step(Step(Step(d, a), b), c);
    OneFirst(d3, e, []);
    OneFirst(d2, c, [e] + []);
    OneFirst(d1, b, [c] + ([e] + []));
    OneFirst(d, a, [b] + ([c] + ([e] + [])));
    assert [a] + ([b] + ([c] + ([e] + []))) == [a, b, c, e];
  }

  lemma OneFirst(d: Desk, l: Label, more: seq<Label>)
    requires Enabled(d, l) && CanRun(Step(d, l), more)
    ensures CanRun(d, [l] + more) && After(d, [l] + more) == After(Step(d, l), more)
  {
    assert ([l] + more)[1..] == more;
  }

  // One request reads an order, another reads and writes it, the first writes.
  function Overtaken(id: nat, first: Task, second: Task): seq<Label> {
    [Read(0, id, first), Read(1, id, second), Write(1), Write(0)]
  }

  lemma OvertakenMoves(s: Shop, id: nat, first: Task, second: Task, p: int)
    requires Valid(s) && id in s.orders && Passes(s.orders[id], first) && Passes(s.orders[id], second)
    requires Written(s, Ticket(id, s.orders[id], second)).Ok?
    requires Written(Written(s, Ticket(id, s.orders[id], second)).value, Ticket(id, s.orders[id], first)).Ok?
    ensures CanRun(Desk(s, map[]), Overtaken(id, first, second))
    ensures var between := Written(s, Ticket(id, s.orders[id], second)).value;
            CopiesOf(After(Desk(s, map[]), Overtaken(id, first, second)).shop, p)
            == CopiesOf(s, p) + HeldIn(s.orders[id], p) - HeldBy(between.orders, id, p)
  {
    var d := Desk(s, map[]);
    var one, two := Ticket(id, s.orders[id], first), Ticket(id, s.orders[id], second);
    hide Valid, Written, CopiesOf, Qty, HeldBy, HeldIn;
    var d1 := Step(d, Read(0, id, first));
    var d2 := Step(d1, Read(1, id, second));
    var d3 := Step(d2, Write(1));
    FourSteps(d, Read(0, id, first), Read(1, id, second), Write(1), Write(0));
    NobodyIsCalm(s);
    StepKeepsSound(d, Read(0, id, first));
    StepKeepsSound(d1, Read(1, id, second));
    StepKeepsSound(d2, Write(1));
    StepMoves(d2, Write(1), p);
    StepMoves(d3, Write(0), p);
    FreshRead(s, id, p);
  }

  lemma FreshRead(s: Shop, id: nat, p: int)
    requires id in s.orders
    ensures HeldIn(s.orders[id], p) == HeldBy(s.orders, id, p)
  {
  }

  // A customer uploads the proof of a payment; before the upload is done the
  // admin cancels the order. The save brings the order back to life, while its
  // copies are already on the shelf.
  lemma ProofBesideCancel(s: Shop, id: nat, p: int)
    requires Valid(s) && id in s.orders && HoldsStock(s.orders[id])
    ensures CanRun(Desk(s, map[]), Overtaken(id, Annotate, SetStatus(Cancelled, None)))
    ensures CopiesOf(After(Desk(s, map[]), Overtaken(id, Annotate, SetStatus(Cancelled, None))).shop, p)
            == CopiesOf(s, p) + Qty(s.orders[id].items, p)
  {
    assert OrderValid(s.paintings, s.orders[id]);
    OvertakenMoves(s, id, Annotate, SetStatus(Cancelled, None), p);
  }

  lemma LastCopyTwice()
    ensures CopiesOf(R.ONE_ORDER, 1) == 1
    ensures CanRun(Desk(R.ONE_ORDER, map[]), Overtaken(0, Annotate, SetStatus(Cancelled, None)))
    ensures CopiesOf(After(Desk(R.ONE_ORDER, map[]), Overtaken(0, Annotate, SetStatus(Cancelled, None))).shop, 1) == 2
  {
    hide CanRun, After, CopiesOf;
    R.OneCopySold();
    R.OneLine(R.LAST_COPY_SOLD.items);
    QtyAt(R.LAST_COPY_SOLD.items, 0);
    ProofBesideCancel(R.ONE_ORDER, 0, 1);
  }

  // An admin deletes a cancelled order that another brings back meanwhile: its
  // copies are gone from the shelf, and then so is the order that held them.
  lemma DeleteBesideUncancel(s: Shop, id: nat, p: int)
    requires Valid(s) && id in s.orders && s.orders[id].status == Cancelled && !s.orders[id].isCommission
    requires CanTakeBackAll(s.paintings, s.orders[id].items)
    ensures CanRun(Desk(s, map[]), Overtaken(id, Remove, SetStatus(Confirmed, None)))
    ensures CopiesOf(After(Desk(s, map[]), Overtaken(id, Remove, SetStatus(Confirmed, None))).shop, p)
            == CopiesOf(s, p) - Qty(s.orders[id].items, p)
  {
    assert OrderValid(s.paintings, s.orders[id]);
    OvertakenMoves(s, id, Remove, SetStatus(Confirmed, None), p);
  }

  // A save gives the order back to whom it belonged when it was read: the
  // owner stays exactly if nobody has claimed it, or been deleted, since.
  lemma OwnerKeptExactlyWhen(s: Shop, k: Ticket)
    requires TicketOk(s, k) && Written(s, k).Ok? && k.task != Remove && k.id in s.orders
    ensures k.id in Written(s, k).value.orders
    ensures Written(s, k).value.orders[k.id].owner == s.orders[k.id].owner <==> k.read.owner == s.orders[k.id].owner
  {
    hide Written, TicketOk;
    WrittenParts(s, k);
  }

  // A guest's order, claimed on signing in while its proof was being uploaded,
  // is the guest's again.
  lemma ClaimIsLost(s: Shop, id: nat, user: int, token: string)
    requires Valid(s) && id in s.orders && s.orders[id].owner == Some(Guest(token))
    ensures var claimed := O.ClaimGuestOrders(s, user, token);
            var saved := Written(claimed, Ticket(id, s.orders[id], Annotate));
            && claimed.orders[id].owner == Some(User(user))
            && saved.Ok? && saved.value.orders[id].owner == Some(Guest(token))
  {
    assert OrderValid(s.paintings, s.orders[id]);
  }

  // ---- painting rows ----

  // An edit saves the whole painting as it was read, patched.
  function EditWritten(s: Shop, p: int, read: Painting, patch: P.Patch): Shop {
    s.(paintings := s.paintings[p := P.Patched(read, patch)])
  }

  // Beyond what it says itself about the amount, an edit brings in exactly
  // the copies that have left the row since it was read.
  lemma EditFromOldRead(s: Shop, p: int, read: Painting, patch: P.Patch, q: int)
    requires p in s.paintings
    ensures CopiesOf(EditWritten(s, p, read, patch), q)
            == CopiesOf(s, q) + M.Adjustment(s, M.UpdatePainting(p, patch), q)
               + if q == p && patch.amount.None? then read.amount - s.paintings[p].amount else 0
  {
  }

  // So an edit that says nothing of the amount, read before a checkout and
  // saved after it, puts back what the customer bought.
  lemma EditBesideCheckout(s: Shop, who: Identity, req: O.CheckoutRequest, p: int, patch: P.Patch)
    requires Valid(s) && O.Checkout(s, who, req).Ok? && p in s.paintings && patch.amount.None?
    ensures var after := O.Checkout(s, who, req).value;
            CopiesOf(EditWritten(after, p, s.paintings[p], patch), p) == CopiesOf(s, p) + C.CopiesIn(s, who, p)
  {
    hide CopiesOf, Valid;
    var after := O.Checkout(s, who, req).value;
    Receipts.BuysTheCart(s, who, req);
    M.Conserved(s, M.Checkout(who, req), p);
    EditFromOldRead(after, p, s.paintings[p], patch, p);
  }
}
