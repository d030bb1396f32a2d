/** Whole runs of the row-locking machine: they are serial runs of the shop,
    and they never get stuck. */
module RowLockRuns {
  import opened Wrappers
  import opened Entities
  import opened StockLines
  import opened Stock
  import opened Tables
  import opened RowLocks
  import O = OrderRules
  import M = ShopMachine

  predicate CanRun(w: World, ls: seq<Label>)
    decreases |ls|
  {
    ls == [] || (Enabled(w, ls[0]) && CanRun(Step(w, ls[0]), ls[1..]))
  }

  function After(w: World, ls: seq<Label>): World
    requires CanRun(w, ls)
    decreases |ls|
  {
    if ls == [] then w else After(Step(w, ls[0]), ls[1..])
  }

  // The transactions a run commits, in commit order.
  function Commits(w: World, ls: seq<Label>): seq<Op>
    requires CanRun(w, ls)
    decreases |ls|
  {
    if ls == [] then []
    else (if ls[0].Commit? then [w.txns[ls[0].t].op] else []) + Commits(Step(w, ls[0]), ls[1..])
  }

  // One transaction after another, nothing in between.
  function Serial(s: Shop, ops: seq<Op>): Result<Shop, Rejection>
    decreases |ops|
  {
    if ops == [] then Ok(s)
    else
      match Body(s, ops[0])
      case Ok(s') => Serial(s', ops[1..])
      case Err(e) => Err(e)
  }

  // Whatever was read beforehand, however the steps fell: the committed
  // state is what running the committed transactions one by one gives.
  lemma {:induction false} RunIsSerial(w: World, ls: seq<Label>)
    requires Inv(w) && CanRun(w, ls)
    ensures Inv(After(w, ls))
    ensures Serial(w.shop, Commits(w, ls)) == Ok(After(w, ls).shop)
    decreases |ls|
  {
    if ls != [] {
      var w' := Step(w, ls[0]);
      StepRefines(w, ls[0]);
      RunIsSerial(w', ls[1..]);
      var rest := Commits(w', ls[1..]);
      match ls[0] {
        case Commit(t) =>
          var op := w.txns[t].op;
          assert ([op] + rest)[0] == op && ([op] + rest)[1..] == rest;
        case _ =>
          assert [] + rest == rest;
      }
    }
  }

  // ---- the whole request, not only its transaction ----

  // The request a transaction belongs to.
  function Request(op: Op): M.Event {
    match op
    case Checkout(who, _, quote) => M.Checkout(who, O.CheckoutRequest(true, true, Some(quote)))
    case Cancel(None, id, _) => M.UpdateStatus(id, Cancelled, None)
    case Cancel(Some(who), id, _) => M.Cancel(who, id)
    case Uncancel(id, _, status, waybill) => M.UpdateStatus(id, status, waybill)
  }

  // What the request read before its transaction is what the tables say, and
  // it got past its own checks.
  predicate ReadWell(s: Shop, op: Op) {
    match op
    case Checkout(who, lines, _) => lines == CartLines(s.cart, s.nextCart, who) && lines != []
    case Cancel(canceller, id, order) =>
      && id in s.orders && s.orders[id] == order && order.status != Cancelled
      && (canceller.Some? ==> order.owner == canceller && order.status != Completed && order.status != Shipped)
    case Uncancel(id, order, status, waybill) =>
      && id in s.orders && s.orders[id] == order && order.status == Cancelled && status != Cancelled
      && (status == Shipped ==> waybill.Some?)
  }

  // One checkout per customer and one status change per order at a time.
  predicate Apart(a: Op, b: Op) {
    if a.Checkout? && b.Checkout? then a.who != b.who
    else if a.Checkout? || b.Checkout? then true
    else a.id != b.id
  }

  ghost predicate Disciplined(w: World, l: Label) {
    l.Begin? ==>
      && ReadWell(w.shop, l.op)
      && forall t :: 0 <= t < |w.txns| && w.txns[t].phase != Finished ==> Apart(w.txns[t].op, l.op)
  }

  ghost predicate DisciplinedRun(w: World, ls: seq<Label>)
    requires CanRun(w, ls)
    decreases |ls|
  {
    ls == [] || (Disciplined(w, ls[0]) && DisciplinedRun(Step(w, ls[0]), ls[1..]))
  }

  ghost predicate Current(w: World) {
    && Valid(w.shop)
    && (forall t :: 0 <= t < |w.txns| && w.txns[t].phase != Finished ==> ReadWell(w.shop, w.txns[t].op))
    && (forall t, u :: 0 <= t < u < |w.txns| && w.txns[t].phase != Finished && w.txns[u].phase != Finished ==>
          Apart(w.txns[t].op, w.txns[u].op))
  }

  // Read well, a transaction is its whole request.
  lemma BodyIsRequest(s: Shop, op: Op)
    requires ReadWell(s, op)
    ensures M.Next(s, Request(op)) == Body(s, op)
    ensures M.WellFormed(Request(op)) && forall p :: M.Adjustment(s, Request(op), p) == 0
  {
  }

  lemma {:induction false} OtherCarts(a: map<nat, CartRow>, n: nat, who: Identity, other: Identity)
    requires who != other
    ensures CartLines(WithoutCartOf(a, other), n, who) == CartLines(a, n, who)
  {
    if n > 0 {
      OtherCarts(a, n - 1, who, other);
    }
  }

  lemma StillReadWell(s: Shop, done: Op, op: Op)
    requires Valid(s) && ReadWell(s, done) && ReadWell(s, op) && Apart(done, op) && Body(s, done).Ok?
    ensures ReadWell(Body(s, done).value, op)
  {
    if done.Checkout? && op.Checkout? {
      OtherCarts(s.cart, s.nextCart, op.who, done.who);
    }
  }

  lemma ApartBothWays(a: Op, b: Op)
    ensures Apart(a, b) <==> Apart(b, a)
  {
  }

  lemma StepKeepsCurrent(w: World, l: Label)
    requires Inv(w) && Enabled(w, l) && Current(w) && Disciplined(w, l)
    ensures Current(Step(w, l))
  {
    hide Valid, Inv, Apart, ReadWell, Body, Locked, Saved, Committed;
    var w' := Step(w, l);
    match l {
      case Commit(t) =>
        var op := w.txns[t].op;
        StepRefines(w, l);
        BodyIsRequest(w.shop, op);
        M.ValidKept(w.shop, Request(op));
        forall u | 0 <= u < |w'.txns| && w'.txns[u].phase != Finished ensures ReadWell(w'.shop, w'.txns[u].op) {
          ApartBothWays(w.txns[t].op, w.txns[u].op);
          StillReadWell(w.shop, op, w.txns[u].op);
        }
      case Begin(op) =>
      case Lock(t) => SameOp(w.shop.paintings, w.txns[t]);
      case Save(t) => SavedSameOp(w.txns[t]);
      case Rollback(t) =>
    }
  }

  lemma SameOp(ps: Paintings, t: Txn)
    requires WantsRow(t)
    ensures Locked(ps, t).op == t.op
  {
  }

  lemma SavedSameOp(t: Txn)
    requires MaySave(t)
    ensures Saved(t).op == t.op && Saved(t).phase == t.phase
  {
  }

  function Requests(ops: seq<Op>): seq<M.Event> {
    if ops == [] then [] else [Request(ops[0])] + Requests(ops[1..])
  }

  lemma {:induction false} RunFromFront(s: Shop, e: M.Event, es: seq<M.Event>)
    ensures M.Run(s, [e] + es) == M.Run(M.Apply(s, e), es)
  {
    var all := [e] + es;
    if es == [] {
      assert all == [e];
      assert M.Run(s, all[..0]) == s;
    } else {
      assert all[..|all| - 1] == [e] + es[..|es| - 1];
      RunFromFront(s, e, es[..|es| - 1]);
    }
  }

  // A disciplined run of concurrent requests is a run of the shop machine,
  // each request taking effect whole at its commit, and no copy of any
  // painting appears or vanishes on the way.
  lemma {:induction false} ConcurrentIsSequential(w: World, ls: seq<Label>)
    requires Inv(w) && Current(w) && CanRun(w, ls) && DisciplinedRun(w, ls)
    ensures Current(After(w, ls))
    ensures After(w, ls).shop == M.Run(w.shop, Requests(Commits(w, ls)))
    ensures forall p :: CopiesOf(After(w, ls).shop, p) == CopiesOf(w.shop, p)
    decreases |ls|
  {
    if ls != [] {
      var w' := Step(w, ls[0]);
      StepRefines(w, ls[0]);
      StepKeepsCurrent(w, ls[0]);
      ConcurrentIsSequential(w', ls[1..]);
      var rest := Commits(w', ls[1..]);
      if ls[0].Commit? {
        CommitIsRequest(w, ls[0].t);
        var op := w.txns[ls[0].t].op;
        assert ([op] + rest)[0] == op && ([op] + rest)[1..] == rest;
        RunFromFront(w.shop, Request(op), Requests(rest));
      } else {
        assert [] + rest == rest;
      }
    }
  }

  lemma CommitIsRequest(w: World, t: nat)
    requires Inv(w) && Current(w) && Enabled(w, Commit(t))
    ensures var request := Request(w.txns[t].op);
            && M.Next(w.shop, request) == Ok(Step(w, Commit(t)).shop)
            && forall p :: CopiesOf(Step(w, Commit(t)).shop, p) == CopiesOf(w.shop, p)
  {
    var op := w.txns[t].op;
    StepRefines(w, Commit(t));
    BodyIsRequest(w.shop, op);
    forall p ensures CopiesOf(Step(w, Commit(t)).shop, p) == CopiesOf(w.shop, p) {
      M.Conserved(w.shop, Request(op), p);
    }
  }

  // ---- conservation needs less ----

  // The copies are safe however many checkouts one customer has in flight,
  // and whatever has become of the cart since it was read: among these three
  // transactions all that matters is that status changes of one order keep
  // apart. (Other writers of an order row are in OrderWriters.)
  predicate StockRead(s: Shop, op: Op) {
    match op
    case Checkout(_, lines, _) => Distinct(lines) && forall item :: item in lines ==> item.quantity >= 0
    case _ => ReadWell(s, op)
  }

  predicate OrdersApart(a: Op, b: Op) {
    a.Checkout? || b.Checkout? || a.id != b.id
  }

  ghost predicate StockCurrent(w: World) {
    && Valid(w.shop)
    && (forall t :: 0 <= t < |w.txns| && w.txns[t].phase != Finished ==> StockRead(w.shop, w.txns[t].op))
    && (forall t, u :: 0 <= t < u < |w.txns| && w.txns[t].phase != Finished && w.txns[u].phase != Finished ==>
          OrdersApart(w.txns[t].op, w.txns[u].op))
  }

  ghost predicate OrdersDisciplined(w: World, l: Label) {
    l.Begin? ==>
      && StockRead(w.shop, l.op)
      && forall t :: 0 <= t < |w.txns| && w.txns[t].phase != Finished ==> OrdersApart(w.txns[t].op, l.op)
  }

  ghost predicate OrdersDisciplinedRun(w: World, ls: seq<Label>)
    requires CanRun(w, ls)
    decreases |ls|
  {
    ls == [] || (OrdersDisciplined(w, ls[0]) && OrdersDisciplinedRun(Step(w, ls[0]), ls[1..]))
  }

  lemma BodyConserves(s: Shop, op: Op)
    requires Valid(s) && StockRead(s, op) && Body(s, op).Ok?
    ensures Valid(Body(s, op).value) && forall p :: CopiesOf(Body(s, op).value, p) == CopiesOf(s, p)
  {
    hide Valid, Body, CopiesOf, O.CheckoutTransaction;
    if op.Checkout? {
      forall p ensures Valid(Body(s, op).value) && CopiesOf(Body(s, op).value, p) == CopiesOf(s, p) {
        BodyOfCheckout(s, op);
        M.CheckoutConserves(s, op.who, op.lines, O.ToCents(op.quote.shippingCost), O.ToCents(op.quote.redeliveryCost),
                            p);
      }
      assert CopiesOf(Body(s, op).value, 0) == CopiesOf(s, 0);
    } else {
      BodyIsRequest(s, op);
      M.ValidKept(s, Request(op));
      forall p ensures CopiesOf(Body(s, op).value, p) == CopiesOf(s, p) {
        M.Conserved(s, Request(op), p);
      }
    }
  }

  lemma BodyOfCheckout(s: Shop, op: Op)
    requires op.Checkout?
    ensures Body(s, op) == O.CheckoutTransaction(s, op.who, op.lines, O.ToCents(op.quote.shippingCost),
                                                 O.ToCents(op.quote.redeliveryCost))
  {
  }

  // Another order's status change, or any checkout, leaves an order as it was.
  lemma StillStockRead(s: Shop, done: Op, op: Op)
    requires Valid(s) && StockRead(s, op) && OrdersApart(done, op) && Body(s, done).Ok?
    ensures StockRead(Body(s, done).value, op)
  {
  }

  lemma StepKeepsStockCurrent(w: World, l: Label)
    requires Inv(w) && Enabled(w, l) && StockCurrent(w) && OrdersDisciplined(w, l)
    ensures StockCurrent(Step(w, l))
    ensures forall p :: CopiesOf(Step(w, l).shop, p) == CopiesOf(w.shop, p)
  {
    hide Valid, Inv, OrdersApart, StockRead, Body, Locked, Saved, Committed, CopiesOf;
    var w' := Step(w, l);
    StepRefines(w, l);
    match l {
      case Commit(t) =>
        var op := w.txns[t].op;
        BodyConserves(w.shop, op);
        forall u | 0 <= u < |w'.txns| && w'.txns[u].phase != Finished ensures StockRead(w'.shop, w'.txns[u].op) {
          OrdersApartBothWays(w.txns[t].op, w.txns[u].op);
          StillStockRead(w.shop, op, w.txns[u].op);
        }
      case Begin(op) =>
      case Lock(t) => SameOp(w.shop.paintings, w.txns[t]);
      case Save(t) => SavedSameOp(w.txns[t]);
      case Rollback(t) =>
    }
  }

  lemma OrdersApartBothWays(a: Op, b: Op)
    ensures OrdersApart(a, b) <==> OrdersApart(b, a)
  {
  }

  lemma {:induction false} ConcurrentConserves(w: World, ls: seq<Label>)
    requires Inv(w) && StockCurrent(w) && CanRun(w, ls) && OrdersDisciplinedRun(w, ls)
    ensures StockCurrent(After(w, ls))
    ensures forall p :: CopiesOf(After(w, ls).shop, p) == CopiesOf(w.shop, p)
    decreases |ls|
  {
    hide Inv, StockCurrent, CopiesOf, OrdersDisciplined, Enabled, Step;
    if ls != [] {
      StepRefines(w, ls[0]);
      StepKeepsStockCurrent(w, ls[0]);
      ConcurrentConserves(Step(w, ls[0]), ls[1..]);
    }
  }

  // ---- why one status change per order ----

  // A cancel works from the order it read. If that order has been cancelled
  // since, the copies come back a second time; otherwise none are made.
  lemma CancelFromOldRead(s: Shop, id: nat, read: Order, p: int)
    requires Valid(s) && id in s.orders
    requires read.items == s.orders[id].items && read.isCommission == s.orders[id].isCommission
    ensures CopiesOf(O.CancelTransaction(s, id, read), p)
            == CopiesOf(s, p) + if s.orders[id].status == Cancelled && !read.isCommission then Qty(read.items, p) else 0
  {
    var after := O.CancelTransaction(s, id, read);
    HeldChangesByOne(s.orders, after.orders, s.nextOrder, id, p);
    assert OrderValid(s.paintings, s.orders[id]);
    if !read.isCommission {
      if p in s.paintings {
        RestoredIsExact(s.paintings, read.items, p);
      } else {
        QtyAbsent(read.items, p);
      }
    }
  }

  // An un-cancel likewise: if the order has been un-cancelled since it was
  // read, its copies leave the shelf a second time.
  lemma UncancelFromOldRead(s: Shop, id: nat, read: Order, status: Status, p: int)
    requires Valid(s) && id in s.orders && status != Cancelled
    requires read.items == s.orders[id].items && read.isCommission == s.orders[id].isCommission
    requires O.UncancelTransaction(s, id, read, status).Ok?
    ensures CopiesOf(O.UncancelTransaction(s, id, read, status).value, p)
            == CopiesOf(s, p) - if s.orders[id].status != Cancelled && !read.isCommission then Qty(read.items, p) else 0
  {
    var after := O.UncancelTransaction(s, id, read, status).value;
    HeldChangesByOne(s.orders, after.orders, s.nextOrder, id, p);
    assert OrderValid(s.paintings, s.orders[id]);
    if !read.isCommission {
      if p in s.paintings {
        TakenIsExact(s.paintings, read.items, p);
      } else {
        QtyAbsent(read.items, p);
      }
    }
  }

  // What a status change writes, given the order it read: the part of
  // `UpdateStatus` and `Cancel` that comes after the checks.
  function StatusWrite(s: Shop, id: nat, read: Order, status: Status): Result<Shop, Rejection> {
    if status == Cancelled then Ok(if read.status == Cancelled then s else O.CancelTransaction(s, id, read))
    else if read.status == Cancelled then O.UncancelTransaction(s, id, read, status)
    else Ok(s.(orders := s.orders[id := read.(status := status)]))
  }

  predicate Live(order: Order) {
    order.status != Cancelled
  }

  // Any status change, the ones that walk no rows included: copies appear
  // where it read a live order that has been cancelled since, vanish where it
  // read a cancelled one that is live again, and stay in every other case,
  // whatever status it sets.
  lemma StatusFromOldRead(s: Shop, id: nat, read: Order, status: Status, p: int)
    requires Valid(s) && id in s.orders && (status == Cancelled ==> Live(read))
    requires read.items == s.orders[id].items && read.isCommission == s.orders[id].isCommission
    requires StatusWrite(s, id, read, status).Ok?
    ensures CopiesOf(StatusWrite(s, id, read, status).value, p) == CopiesOf(s, p)
            + if read.isCommission || Live(read) == Live(s.orders[id]) then 0
              else if Live(read) then Qty(read.items, p) else -Qty(read.items, p)
  {
    if status == Cancelled {
      CancelFromOldRead(s, id, read, p);
    } else if !Live(read) {
      UncancelFromOldRead(s, id, read, status, p);
    } else {
      HeldChangesByOne(s.orders, StatusWrite(s, id, read, status).value.orders, s.nextOrder, id, p);
    }
  }

  // So in any interleaving: a commit conserves copies unless the order has
  // gone from live to cancelled, or back, since its transaction read it.
  lemma CommitFromOldRead(w: World, t: nat, p: int)
    requires Inv(w) && Valid(w.shop) && Enabled(w, Commit(t)) && !w.txns[t].op.Checkout?
    requires w.txns[t].op.Cancel? <==> Live(w.txns[t].op.order)
    requires w.txns[t].op.Uncancel? ==> w.txns[t].op.status != Cancelled
    requires var op := w.txns[t].op;
             && op.id in w.shop.orders && op.order.items == w.shop.orders[op.id].items
             && op.order.isCommission == w.shop.orders[op.id].isCommission
    ensures var op := w.txns[t].op;
            CopiesOf(Step(w, Commit(t)).shop, p) == CopiesOf(w.shop, p)
            + if op.order.isCommission || Live(op.order) == Live(w.shop.orders[op.id]) then 0
              else if Live(op.order) then Qty(op.order.items, p) else -Qty(op.order.items, p)
  {
    hide Inv, Valid, CopiesOf, Committed, Qty;
    var op := w.txns[t].op;
    StepRefines(w, Commit(t));
    if op.Cancel? {
      CancelFromOldRead(w.shop, op.id, op.order, p);
    } else {
      UncancelFromOldRead(w.shop, op.id, Stamped(op), op.status, p);
    }
  }

  // Read afresh, it is the request itself.
  lemma StatusWriteIsRequest(s: Shop, id: nat, status: Status, waybill: Option<string>)
    requires O.UpdateStatus(s, id, status, waybill).Ok? && s.orders[id].status != status
    ensures var read := if status == Shipped then s.orders[id].(trackingNumber := waybill) else s.orders[id];
            O.UpdateStatus(s, id, status, waybill) == StatusWrite(s, id, read, status)
    ensures status == Cancelled ==> forall who :: O.Cancel(s, who, id).Ok? ==>
              O.Cancel(s, who, id) == StatusWrite(s, id, s.orders[id], status)
  {
  }

  const LAST_COPY_SOLD := Order(Some(User(7)), [Item(1, 1, 100)], Pending, false, false, None, 0, 0, 100)
  const ONE_ORDER := Shop(map[1 := Painting(100, 0, false, false)], 2, map[], 0, map[0 := LAST_COPY_SOLD], 1)
  const BY_CUSTOMER := RowLocks.Cancel(Some(User(7)), 0, LAST_COPY_SOLD)
  const BY_ADMIN := RowLocks.Cancel(None, 0, LAST_COPY_SOLD)
  const TWO_CANCELS := [Begin(BY_CUSTOMER), Begin(BY_ADMIN)] + Alone(0) + Alone(1)

  // One transaction's steps for an order of one line.
  function Alone(t: nat): seq<Label> {
    [Lock(t), Save(t), Commit(t)]
  }

  lemma {:induction false} RunsCompose(w: World, a: seq<Label>, b: seq<Label>)
    requires CanRun(w, a) && CanRun(After(w, a), b)
    ensures CanRun(w, a + b) && After(w, a + b) == After(After(w, a), b)
    decreases |a|
  {
    if a == [] {
      assert a + b == b;
    } else {
      assert (a + b)[0] == a[0] && (a + b)[1..] == a[1..] + b;
      RunsCompose(Step(w, a[0]), a[1..], b);
    }
  }

  lemma ThreeSteps(w: World, ls: seq<Label>)
    requires |ls| == 3 && Enabled(w, ls[0]) && Enabled(Step(w, ls[0]), ls[1])
    requires Enabled(Step(Step(w, ls[0]), ls[1]), ls[2])
    ensures CanRun(w, ls) && After(w, ls) == Step(Step(Step(w, ls[0]), ls[1]), ls[2])
  {
    var w1 := Step(w, ls[0]);
    var w2 := Step(w1, ls[1]);
    assert ls[1..] == [ls[1], ls[2]] && ls[2..] == [ls[2]] && ls[1..][1..] == ls[2..] && ls[2..][1..] == [];
    var w3 := Step(w2, ls[2]);
    assert CanRun(w3, []) && After(w3, []) == w3;
    assert CanRun(w2, ls[2..]) && After(w2, ls[2..]) == w3;
    assert CanRun(w1, ls[1..]) && After(w1, ls[1..]) == Step(w2, ls[2]);
  }

  // A cancel that meets nobody on the way puts one copy back, whatever has
  // become of the order since it was read.
  lemma CancelAlone(w: World, t: nat)
    requires t < |w.txns| && w.txns[t].op in [BY_CUSTOMER, BY_ADMIN]
    requires w.txns[t] == Txn(w.txns[t].op, LAST_COPY_SOLD.items, 0, 0, map[], map[], Running)
    requires RowFree(w, t, 1) && 1 in w.shop.paintings
    ensures CanRun(w, Alone(t))
    ensures After(w, Alone(t)).shop == w.shop.(
              paintings := w.shop.paintings[1 := Restock(w.shop.paintings[1], 1)],
              orders := w.shop.orders[0 := LAST_COPY_SOLD.(status := Cancelled)])
    ensures |After(w, Alone(t)).txns| == |w.txns| && Held(After(w, Alone(t)).txns[t]) == {}
    ensures forall u :: 0 <= u < |w.txns| && u != t ==> After(w, Alone(t)).txns[u] == w.txns[u]
  {
    var op, items, row := w.txns[t].op, LAST_COPY_SOLD.items, w.shop.paintings[1];
    var locked := Txn(op, items, 1, 0, map[1 := row], map[], Running);
    var w1 := w.(txns := w.txns[t := locked]);
    assert Enabled(w, Lock(t)) && Step(w, Lock(t)) == w1;
    var saved := Txn(op, items, 1, 1, map[1 := row], map[1 := Restock(row, 1)], Running);
    var w2 := w.(txns := w.txns[t := saved]);
    assert Enabled(w1, Save(t)) && Step(w1, Save(t)) == w2;
    assert Enabled(w2, Commit(t));
    ThreeSteps(w, Alone(t));
    assert w.shop.paintings + saved.work == w.shop.paintings[1 := Restock(row, 1)];
  }

  // Customer and admin cancel the same order at once: the single copy that
  // was sold comes back as two.
  lemma TwoCancelsAtOnce()
    ensures var w := World(ONE_ORDER, []);
            && Inv(w) && Current(w) && CanRun(w, TWO_CANCELS)
            && CopiesOf(w.shop, 1) == 1 && CopiesOf(After(w, TWO_CANCELS).shop, 1) == 2
  {
    var w0 := World(ONE_ORDER, []);
    var items := LAST_COPY_SOLD.items;
    var begun := [Begin(BY_CUSTOMER), Begin(BY_ADMIN)];
    var w2 := World(ONE_ORDER, [Begun(BY_CUSTOMER), Begun(BY_ADMIN)]);
    BothBegin();
    hide CanRun, After;
    OneLine(items);
    OneCopySold();
    CancelAlone(w2, 0);
    RunsCompose(w0, begun, Alone(0));
    var w5 := After(w2, Alone(0));
    CancelAlone(w5, 1);
    RunsCompose(w0, begun + Alone(0), Alone(1));
    assert begun + Alone(0) + Alone(1) == TWO_CANCELS;
    assert After(w5, Alone(1)).shop.paintings[1].amount == 2;
    assert HeldByAll(After(w5, Alone(1)).shop.orders, 0, 1) == 0;
  }

  // An order of one copy, cancelled, beside two on the shelf; the admin brings
  // it back twice at once.
  const ONE_CANCELLED := LAST_COPY_SOLD.(status := Cancelled)
  const TWO_LEFT := Shop(map[1 := Painting(100, 2, true, false)], 2, map[], 0, map[0 := ONE_CANCELLED], 1)
  const BACK_AGAIN := RowLocks.Uncancel(0, ONE_CANCELLED, Pending, None)
  const TWO_UNCANCELS := [Begin(BACK_AGAIN), Begin(BACK_AGAIN)] + Alone(0) + Alone(1)

  lemma UncancelAlone(w: World, t: nat)
    requires t < |w.txns| && w.txns[t] == Txn(BACK_AGAIN, LAST_COPY_SOLD.items, 0, 0, map[], map[], Running)
    requires RowFree(w, t, 1) && 1 in w.shop.paintings && w.shop.paintings[1].amount >= 1
    ensures CanRun(w, Alone(t))
    ensures After(w, Alone(t)).shop == w.shop.(
              paintings := w.shop.paintings[1 := Sell(w.shop.paintings[1], 1)],
              orders := w.shop.orders[0 := LAST_COPY_SOLD])
    ensures |After(w, Alone(t)).txns| == |w.txns| && Held(After(w, Alone(t)).txns[t]) == {}
    ensures forall u :: 0 <= u < |w.txns| && u != t ==> After(w, Alone(t)).txns[u] == w.txns[u]
  {
    var items, row := LAST_COPY_SOLD.items, w.shop.paintings[1];
    var locked := Txn(BACK_AGAIN, items, 1, 0, map[1 := row], map[], Running);
    var w1 := w.(txns := w.txns[t := locked]);
    assert Enabled(w, Lock(t)) && Step(w, Lock(t)) == w1;
    var saved := Txn(BACK_AGAIN, items, 1, 1, map[1 := row], map[1 := Sell(row, 1)], Running);
    var w2 := w.(txns := w.txns[t := saved]);
    assert Enabled(w1, Save(t)) && Step(w1, Save(t)) == w2;
    assert Enabled(w2, Commit(t));
    ThreeSteps(w, Alone(t));
    assert w.shop.paintings + saved.work == w.shop.paintings[1 := Sell(row, 1)];
  }

  // The order holds one copy, but two have left the shelf.
  lemma TwoUncancelsAtOnce()
    ensures var w := World(TWO_LEFT, []);
            && Inv(w) && Current(w) && CanRun(w, TWO_UNCANCELS)
            && CopiesOf(w.shop, 1) == 2 && CopiesOf(After(w, TWO_UNCANCELS).shop, 1) == 1
  {
    var w0 := World(TWO_LEFT, []);
    var begun := [Begin(BACK_AGAIN), Begin(BACK_AGAIN)];
    var w2 := World(TWO_LEFT, [Begun(BACK_AGAIN), Begun(BACK_AGAIN)]);
    BothBeginAgain();
    hide CanRun, After;
    OneLine(LAST_COPY_SOLD.items);
    TwoLeftValid();
    UncancelAlone(w2, 0);
    RunsCompose(w0, begun, Alone(0));
    var w5 := After(w2, Alone(0));
    UncancelAlone(w5, 1);
    RunsCompose(w0, begun + Alone(0), Alone(1));
    assert begun + Alone(0) + Alone(1) == TWO_UNCANCELS;
    var end := After(w5, Alone(1)).shop;
    assert end.paintings[1].amount == 0;
    QtyAt(LAST_COPY_SOLD.items, 0);
    assert HeldByAll(end.orders, 0, 1) == 0;
  }

  lemma BothBeginAgain()
    ensures var w, begun := World(TWO_LEFT, []), [Begin(BACK_AGAIN), Begin(BACK_AGAIN)];
            CanRun(w, begun) && After(w, begun) == World(TWO_LEFT, [Begun(BACK_AGAIN), Begun(BACK_AGAIN)])
  {
    OneLine(LAST_COPY_SOLD.items);
    var w0, begun := World(TWO_LEFT, []), [Begin(BACK_AGAIN), Begin(BACK_AGAIN)];
    var w1, w2 := World(TWO_LEFT, [Begun(BACK_AGAIN)]), World(TWO_LEFT, [Begun(BACK_AGAIN), Begun(BACK_AGAIN)]);
    assert begun[1..] == [Begin(BACK_AGAIN)] && begun[1..][1..] == [];
    assert Step(w0, begun[0]) == w1 && Step(w1, begun[1]) == w2;
    assert CanRun(w2, []) && After(w2, []) == w2;
    assert CanRun(w1, begun[1..]) && After(w1, begun[1..]) == w2;
  }

  lemma TwoLeftValid()
    ensures Valid(TWO_LEFT) && CopiesOf(TWO_LEFT, 1) == 2
  {
    var items := LAST_COPY_SOLD.items;
    OneLine(items);
    assert items[..0] == [] && ItemsTotal(items) == 100;
    assert HeldByAll(TWO_LEFT.orders, 0, 1) == 0;
  }

  lemma BothBegin()
    ensures var w, begun := World(ONE_ORDER, []), [Begin(BY_CUSTOMER), Begin(BY_ADMIN)];
            CanRun(w, begun) && After(w, begun) == World(ONE_ORDER, [Begun(BY_CUSTOMER), Begun(BY_ADMIN)])
  {
    OneLine(LAST_COPY_SOLD.items);
    var w0, begun := World(ONE_ORDER, []), [Begin(BY_CUSTOMER), Begin(BY_ADMIN)];
    var w1, w2 := World(ONE_ORDER, [Begun(BY_CUSTOMER)]), World(ONE_ORDER, [Begun(BY_CUSTOMER), Begun(BY_ADMIN)]);
    assert begun[1..] == [Begin(BY_ADMIN)] && begun[1..][1..] == [];
    assert Step(w0, begun[0]) == w1 && Step(w1, begun[1]) == w2;
    assert CanRun(w2, []) && After(w2, []) == w2;
    assert CanRun(w1, begun[1..]) && After(w1, begun[1..]) == w2;
  }

  lemma OneCopySold()
    ensures Valid(ONE_ORDER) && CopiesOf(ONE_ORDER, 1) == 1
  {
    var items := LAST_COPY_SOLD.items;
    OneLine(items);
    QtyAt(items, 0);
    assert items[..0] == [] && ItemsTotal(items) == 100;
    assert HeldByAll(ONE_ORDER.orders, 0, 1) == 0;
  }

  lemma OneLine(items: seq<Item>)
    requires |items| == 1
    ensures StockOrder(items) == items && Distinct(items) && Ids(items) == {items[0].paintingId}
  {
  }
}

module Deadlock {
  import opened Entities
  import opened StockLines
  import opened Stock
  import opened RowLocks
  import opened RowLockRuns
  import OrderRules

  predicate Unfinished(w: World, t: nat) {
    t < |w.txns| && w.txns[t].phase != Finished
  }

  function WantedId(t: Txn): int
    requires WantsRow(t)
  {
    t.plan[t.locked].paintingId
  }

  // A transaction that is neither waiting for a row nor over can move.
  lemma MovesOrWaits(w: World, t: nat)
    requires Inv(w) && Unfinished(w, t)
    ensures WantsRow(w.txns[t]) || Enabled(w, Save(t)) || Enabled(w, Commit(t)) || Enabled(w, Rollback(t))
  {
    WrittenAreLines(w.txns[t]);
  }

  // Rows are taken in ascending order, so whatever a waiting transaction
  // holds lies below what it waits for.
  lemma HoldsOnlyBelow(w: World, t: nat, p: int)
    requires Inv(w) && Unfinished(w, t) && WantsRow(w.txns[t]) && p in Held(w.txns[t])
    ensures p < WantedId(w.txns[t])
  {
    var txn := w.txns[t];
    StockOrderIsStrict(Lines(txn.op));
    var item :| item in txn.plan[..txn.locked] && item.paintingId == p;
  }

  // Of the first n transactions, the one waiting for the highest row.
  function HighestWaiter(w: World, n: nat): (r: int)
    requires n <= |w.txns|
    ensures -1 <= r < n
    ensures r >= 0 ==> WantsRow(w.txns[r])
    ensures forall t :: 0 <= t < n && WantsRow(w.txns[t]) ==> r >= 0 && WantedId(w.txns[t]) <= WantedId(w.txns[r])
  {
    if n == 0 then -1
    else
      var r := HighestWaiter(w, n - 1);
      if WantsRow(w.txns[n - 1]) && (r < 0 || WantedId(w.txns[r]) <= WantedId(w.txns[n - 1])) then n - 1 else r
  }

  // No deadlock: while anything is unfinished, something can take a step.
  lemma SomeoneCanStep(w: World, t: nat) returns (l: Label)
    requires Inv(w) && Unfinished(w, t)
    ensures Enabled(w, l) && !l.Begin?
  {
    MovesOrWaits(w, t);
    if !WantsRow(w.txns[t]) {
      l := if Enabled(w, Save(t)) then Save(t) else if Enabled(w, Commit(t)) then Commit(t) else Rollback(t);
    } else {
      var top := HighestWaiter(w, |w.txns|);
      if Enabled(w, Lock(top)) {
        l := Lock(top);
      } else {
        // Whoever holds the row at the top waits for nothing.
        var p := WantedId(w.txns[top]);
        var u :| 0 <= u < |w.txns| && u != top && p in Held(w.txns[u]);
        if WantsRow(w.txns[u]) {
          HoldsOnlyBelow(w, u, p);
          assert false;
        }
        MovesOrWaits(w, u);
        l := if Enabled(w, Save(u)) then Save(u) else if Enabled(w, Commit(u)) then Commit(u) else Rollback(u);
      }
    }
  }

  // ---- and it all comes to an end ----

  function Left(t: Txn): int {
    match t.phase
    case Running => 2 + |t.plan| - t.locked + |t.plan| - t.saved
    case Failing => 1
    case Finished => 0
  }

  function Work(txns: seq<Txn>): int {
    if txns == [] then 0 else Left(txns[0]) + Work(txns[1..])
  }

  lemma {:induction false} WorkOfUpdate(txns: seq<Txn>, t: nat, txn: Txn)
    requires t < |txns|
    ensures Work(txns[t := txn]) == Work(txns) + Left(txn) - Left(txns[t])
  {
    var updated := txns[t := txn];
    if t == 0 {
      assert updated[1..] == txns[1..];
    } else {
      WorkOfUpdate(txns[1..], t - 1, txn);
      assert updated[1..] == txns[1..][t - 1 := txn];
    }
  }

  lemma {:induction false} WorkIsCounted(txns: seq<Txn>)
    requires forall t :: 0 <= t < |txns| && txns[t].phase == Running ==>
               txns[t].locked <= |txns[t].plan| && txns[t].saved <= |txns[t].plan|
    ensures Work(txns) >= 0
    ensures Work(txns) == 0 <==> forall t :: 0 <= t < |txns| ==> txns[t].phase == Finished
  {
    if txns != [] {
      WorkIsCounted(txns[1..]);
      assert txns == [txns[0]] + txns[1..];
    }
  }

  lemma InvCounts(w: World)
    requires Inv(w)
    ensures forall t :: 0 <= t < |w.txns| && w.txns[t].phase == Running ==>
              w.txns[t].locked <= |w.txns[t].plan| && w.txns[t].saved <= |w.txns[t].plan|
  {
  }

  // Every step but a beginning leaves less to do.
  lemma StepsRunOut(w: World, l: Label)
    requires Inv(w) && Enabled(w, l) && !l.Begin?
    ensures Work(Step(w, l).txns) < Work(w.txns)
  {
    InvCounts(w);
    var t := l.t;
    assert Faithful(w.shop.paintings, w.txns[t]);
    WorkOfUpdate(w.txns, t, Step(w, l).txns[t]);
    assert Step(w, l).txns == w.txns[t := Step(w, l).txns[t]];
  }

  // From any reachable state the transactions already begun can all be
  // brought to commit or rollback.
  lemma AllCanFinish(w: World) returns (ls: seq<Label>)
    requires Inv(w)
    ensures CanRun(w, ls) && forall t :: 0 <= t < |After(w, ls).txns| ==> After(w, ls).txns[t].phase == Finished
    decreases Work(w.txns)
  {
    InvCounts(w);
    WorkIsCounted(w.txns);
    if Work(w.txns) == 0 {
      ls := [];
    } else {
      var t :| 0 <= t < |w.txns| && w.txns[t].phase != Finished;
      var l := SomeoneCanStep(w, t);
      StepsRunOut(w, l);
      StepKeeps(w, l);
      InvCounts(Step(w, l));
      WorkIsCounted(Step(w, l).txns);
      var rest := AllCanFinish(Step(w, l));
      ls := [l] + rest;
      assert ls[1..] == rest;
    }
  }

  // ---- without the common order ----

  // Two checkouts for the same two paintings, each walking its cart as it
  // came. Everything else is as it should be, and neither can ever move.
  lemma CrosswiseIsStuck(a: Painting, b: Painting)
    requires a.isAvailable && b.isAvailable && a.amount >= 1 && b.amount >= 1
    ensures exists w: World ::
              && Exclusive(w)
              && (forall t :: 0 <= t < |w.txns| ==>
                    && w.txns[t].phase == Running && Distinct(w.txns[t].plan) && w.txns[t].locked <= |w.txns[t].plan|
                    && ReadsStand(w.shop.paintings, w.txns[t]) && ChecksStand(w.shop.paintings, w.txns[t]))
              && |w.txns| == 2
              && forall l :: Enabled(w, l) ==> l.Begin?
  {
    var one, two := Item(1, 1, 0), Item(2, 1, 0);
    var ps := map[1 := a, 2 := b];
    var shop := Shop(ps, 3, map[], 0, map[], 0);
    var quote := OrderRules.Quote(0.0, 0.0);
    var left := Txn(Checkout(User(7), [one, two], quote), [one, two], 1, 1, map[1 := a], map[1 := Sell(a, 1)], Running);
    var right := Txn(Checkout(User(8), [two, one], quote), [two, one], 1, 1, map[2 := b], map[2 := Sell(b, 1)],
                     Running);
    var w := World(shop, [left, right]);
    assert left.plan[..1] == [one] && right.plan[..1] == [two];
    assert Ids([one]) == {1} && Ids([two]) == {2};
    assert 2 in Held(w.txns[1]) && 1 in Held(w.txns[0]);
    forall l | Enabled(w, l) ensures l.Begin? {
    }
  }
}
