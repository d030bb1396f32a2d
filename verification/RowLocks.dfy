/** Checkout, cancel and un-cancel as they really run: many transactions at
    once, each locking painting rows one at a time, reading them under the
    lock, saving them one at a time, and committing or rolling back. */
module RowLocks {
  import opened Wrappers
  import opened Entities
  import opened StockLines
  import opened Stock
  import opened Tables
  import O = OrderRules

  // What a transaction was started with. The cart and the order were read
  // before it began; `canceller` is None when the admin is the one cancelling.
  datatype Op =
    | Checkout(who: Identity, lines: seq<Item>, quote: O.Quote)
    | Cancel(canceller: Option<Identity>, id: nat, order: Order)
    | Uncancel(id: nat, order: Order, status: Status, waybill: Option<string>)

  datatype Phase = Running | Failing | Finished

  // `plan` is the order the rows are locked in, `locked` and `saved` count
  // the lines done so far, `seen` is what was read under lock, and `work`
  // what has been saved but not committed.
  datatype Txn = Txn(op: Op, plan: seq<Item>, locked: nat, saved: nat,
                     seen: Paintings, work: Paintings, phase: Phase)

  // `shop` is the committed state.
  datatype World = World(shop: Shop, txns: seq<Txn>)

  datatype Label = Begin(op: Op) | Lock(t: nat) | Save(t: nat) | Commit(t: nat) | Rollback(t: nat)

  // A commission's order moves no stock, so its transaction walks no rows.
  function Lines(op: Op): seq<Item> {
    match op
    case Checkout(_, lines, _) => lines
    case Cancel(_, _, order) => if order.isCommission then [] else order.items
    case Uncancel(_, order, _, _) => if order.isCommission then [] else order.items
  }

  // Rows are written back in lock order, except by un-cancelling, whose
  // second pass follows the order's own lines.
  function Written(t: Txn): seq<Item> {
    if t.op.Uncancel? then Lines(t.op) else t.plan
  }

  predicate Check(ps: Paintings, op: Op, item: Item) {
    match op
    case Checkout(_, _, _) => CanSell(ps, item)
    case Cancel(_, _, _) => true
    case Uncancel(_, _, _, _) => CanTakeBack(ps, item)
  }

  function MovedRow(op: Op, row: Painting, q: int): Painting {
    if op.Cancel? then Restock(row, q) else Sell(row, q)
  }

  function Held(t: Txn): set<int> {
    if t.phase == Finished then {} else t.seen.Keys
  }

  predicate RowFree(w: World, t: nat, p: int) {
    forall u :: 0 <= u < |w.txns| && u != t ==> p !in Held(w.txns[u])
  }

  // Ready to ask for its next row; the lock itself may still be another's.
  predicate WantsRow(t: Txn) {
    t.phase == Running && t.locked < |t.plan| && (t.op.Uncancel? || t.saved == t.locked)
  }

  predicate Enabled(w: World, l: Label) {
    match l
    case Begin(op) => Distinct(Lines(op))
    case Lock(t) => t < |w.txns| && WantsRow(w.txns[t]) && RowFree(w, t, w.txns[t].plan[w.txns[t].locked].paintingId)
    case Save(t) => t < |w.txns| && MaySave(w.txns[t])
    case Commit(t) => t < |w.txns| && MayCommit(w.txns[t])
    case Rollback(t) => t < |w.txns| && w.txns[t].phase == Failing
  }

  predicate MaySave(t: Txn) {
    t.phase == Running && t.saved < |Written(t)| && if t.op.Uncancel? then t.locked == |t.plan| else t.saved < t.locked
  }

  predicate MayCommit(t: Txn) {
    t.phase == Running && t.locked == |t.plan| && t.saved == |Written(t)|
  }

  function Begun(op: Op): Txn {
    Txn(op, StockOrder(Lines(op)), 0, 0, map[], map[], Running)
  }

  // SELECT ... FOR UPDATE, then the check on what it returned.
  function Locked(ps: Paintings, t: Txn): Txn
    requires WantsRow(t)
  {
    var item := t.plan[t.locked];
    var read := if item.paintingId in ps then t.(seen := t.seen[item.paintingId := ps[item.paintingId]]) else t;
    if Check(ps, t.op, item) then read.(locked := t.locked + 1) else read.(phase := Failing)
  }

  function Saved(t: Txn): Txn
    requires t.saved < |Written(t)|
  {
    var item := Written(t)[t.saved];
    var p := item.paintingId;
    var wrote := if p in t.seen then t.(work := t.work[p := MovedRow(t.op, t.seen[p], item.quantity)]) else t;
    wrote.(saved := t.saved + 1)
  }

  function PriceSeen(t: Txn, item: Item): Item {
    if item.paintingId in t.seen then item.(price := t.seen[item.paintingId].price) else item
  }

  function Stamped(op: Op): Order
    requires op.Uncancel?
  {
    if op.status == Shipped then op.order.(trackingNumber := op.waybill) else op.order
  }

  // What a commit publishes: the saved rows, and the order.
  function Committed(s: Shop, t: Txn): Shop {
    var s' := s.(paintings := s.paintings + t.work);
    match t.op
    case Checkout(who, _, quote) =>
      var items := seq(|t.plan|, i requires 0 <= i < |t.plan| => PriceSeen(t, t.plan[i]));
      var delivery, cod := O.ToCents(quote.shippingCost), O.ToCents(quote.redeliveryCost);
      s'.(orders := s.orders[s.nextOrder :=
            Order(Some(who), items, Pending, false, false, None, delivery, cod, ItemsTotal(items) + delivery + cod)],
          nextOrder := s.nextOrder + 1,
          cart := WithoutCartOf(s.cart, who))
    case Cancel(_, id, order) => s'.(orders := s.orders[id := order.(status := Cancelled)])
    case Uncancel(id, _, status, _) => s'.(orders := s.orders[id := Stamped(t.op).(status := status)])
  }

  function Step(w: World, l: Label): World
    requires Enabled(w, l)
  {
    match l
    case Begin(op) => w.(txns := w.txns + [Begun(op)])
    case Lock(t) => w.(txns := w.txns[t := Locked(w.shop.paintings, w.txns[t])])
    case Save(t) => w.(txns := w.txns[t := Saved(w.txns[t])])
    case Commit(t) => World(Committed(w.shop, w.txns[t]), w.txns[t := w.txns[t].(phase := Finished)])
    case Rollback(t) => w.(txns := w.txns[t := w.txns[t].(phase := Finished)])
  }

  // The same transaction with nothing else going on: the reference.
  function Body(s: Shop, op: Op): Result<Shop, Rejection> {
    match op
    case Checkout(who, lines, quote) =>
      O.CheckoutTransaction(s, who, lines, O.ToCents(quote.shippingCost), O.ToCents(quote.redeliveryCost))
    case Cancel(_, id, order) => Ok(O.CancelTransaction(s, id, order))
    case Uncancel(id, _, status, _) => O.UncancelTransaction(s, id, Stamped(op), status)
  }

  // ---- the invariant ----

  function Reached(t: Txn): nat {
    if t.phase == Failing then t.locked + 1 else t.locked
  }

  ghost predicate Positions(t: Txn) {
    && Distinct(Lines(t.op)) && t.plan == StockOrder(Lines(t.op)) && |t.plan| == |Lines(t.op)|
    && t.saved <= t.locked && Reached(t) <= |t.plan|
    && (t.op.Uncancel? && t.saved > 0 ==> t.locked == |t.plan|)
    && (!t.op.Uncancel? ==> t.locked <= t.saved + 1)
  }

  // What t read is what is committed ...
  ghost predicate ReadsStand(ps: Paintings, t: Txn)
    requires Reached(t) <= |t.plan|
  {
    && t.seen.Keys == Ids(t.plan[..Reached(t)]) * ps.Keys
    && (forall p :: p in t.seen ==> t.seen[p] == ps[p])
  }

  // ... what t decided is still right ...
  ghost predicate ChecksStand(ps: Paintings, t: Txn)
    requires Reached(t) <= |t.plan|
  {
    && (forall i :: 0 <= i < t.locked ==> Check(ps, t.op, t.plan[i]))
    && (t.phase == Failing ==> !Check(ps, t.op, t.plan[t.locked]))
  }

  // ... and what t saved is what moving the committed rows would give.
  ghost predicate WorkStands(ps: Paintings, t: Txn)
    requires t.saved <= |Written(t)|
  {
    && t.work.Keys == Ids(Written(t)[..t.saved]) * ps.Keys
    && (forall p :: p in t.work ==> t.work[p] == MovedRow(t.op, ps[p], Qty(Lines(t.op), p)))
  }

  ghost predicate Faithful(ps: Paintings, t: Txn) {
    Positions(t) && ReadsStand(ps, t) && ChecksStand(ps, t) && t.saved <= |Written(t)| && WorkStands(ps, t)
  }

  ghost predicate Exclusive(w: World) {
    forall t, u :: 0 <= t < |w.txns| && 0 <= u < |w.txns| && t != u ==> Held(w.txns[t]) !! Held(w.txns[u])
  }

  ghost predicate Inv(w: World) {
    && Exclusive(w)
    && forall t :: 0 <= t < |w.txns| && w.txns[t].phase != Finished ==> Faithful(w.shop.paintings, w.txns[t])
  }

  // ---- one transaction ----

  lemma WrittenAreLines(t: Txn)
    requires Positions(t)
    ensures |Written(t)| == |t.plan|
    ensures forall item :: item in Written(t) <==> item in Lines(t.op)
    ensures forall item :: item in t.plan <==> item in Lines(t.op)
    ensures Ids(Written(t)) == Ids(Lines(t.op)) == Ids(t.plan)
    ensures Distinct(t.plan) && Distinct(Written(t))
    ensures multiset(t.plan) == multiset(Lines(t.op))
  {
    StockOrderSorts(Lines(t.op));
    StockOrderKeepsDistinct(Lines(t.op));
    SameItems(t.plan, Lines(t.op));
  }

  lemma WorkIsHeld(ps: Paintings, t: Txn)
    requires Faithful(ps, t)
    ensures t.work.Keys <= t.seen.Keys <= ps.Keys
  {
    WrittenAreLines(t);
    if t.op.Uncancel? && t.saved > 0 {
      assert t.plan[..t.locked] == t.plan;
    }
  }

  lemma BegunIsFaithful(ps: Paintings, op: Op)
    requires Distinct(Lines(op))
    ensures Faithful(ps, Begun(op)) && Held(Begun(op)) == {}
  {
    StockOrderSorts(Lines(op));
    assert |StockOrder(Lines(op))| == |multiset(StockOrder(Lines(op)))|;
  }

  lemma LockedIsFaithful(ps: Paintings, t: Txn)
    requires Faithful(ps, t) && WantsRow(t)
    ensures Faithful(ps, Locked(ps, t))
    ensures Held(Locked(ps, t)) == Held(t) + ({t.plan[t.locked].paintingId} * ps.Keys)
  {
    hide WorkStands, ChecksStand, ReadsStand, Distinct, StockOrder, Ids, Qty;
    var t' := Locked(ps, t);
    assert Positions(t');
    LockedReads(ps, t);
    LockedChecks(ps, t);
    LockedWork(ps, t);
  }

  lemma LockedReads(ps: Paintings, t: Txn)
    requires WantsRow(t) && ReadsStand(ps, t)
    ensures ReadsStand(ps, Locked(ps, t))
    ensures Held(Locked(ps, t)) == Held(t) + ({t.plan[t.locked].paintingId} * ps.Keys)
  {
    PrefixIds(t.plan, t.locked);
    LockedFields(ps, t);
    hide Ids, Check, Locked, Reached, WantsRow, Lines;
  }

  lemma LockedFields(ps: Paintings, t: Txn)
    requires WantsRow(t)
    ensures Reached(t) == t.locked && Reached(Locked(ps, t)) == t.locked + 1 && Locked(ps, t).plan == t.plan
    ensures var p := t.plan[t.locked].paintingId;
            Locked(ps, t).seen == if p in ps then t.seen[p := ps[p]] else t.seen
  {
  }

  lemma LockedChecks(ps: Paintings, t: Txn)
    requires WantsRow(t) && ChecksStand(ps, t)
    ensures ChecksStand(ps, Locked(ps, t))
  {
  }

  lemma LockedWork(ps: Paintings, t: Txn)
    requires WantsRow(t) && t.saved <= |Written(t)| && WorkStands(ps, t)
    ensures t.saved <= |Written(Locked(ps, t))| && WorkStands(ps, Locked(ps, t))
  {
  }

  lemma PrefixIds(items: seq<Item>, n: nat)
    requires n < |items|
    ensures Ids(items[..n + 1]) == Ids(items[..n]) + {items[n].paintingId}
    ensures items[n].paintingId in Ids(items)
  {
  }

  lemma SavedIsFaithful(ps: Paintings, t: Txn)
    requires Faithful(ps, t) && MaySave(t)
    ensures Faithful(ps, Saved(t)) && Held(Saved(t)) == Held(t)
  {
    hide Ids, Distinct, StockOrder, CanSell, CanTakeBack, MovedRow, Check, Qty;
    NextWritten(ps, t);
    var t' := Saved(t);
    assert Written(t') == Written(t);
    var p := Written(t)[t.saved].paintingId;
    assert t'.work.Keys == t.work.Keys + ({p} * ps.Keys);
  }

  lemma NextWritten(ps: Paintings, t: Txn)
    requires Faithful(ps, t) && MaySave(t)
    ensures var item := Written(t)[t.saved];
            && Ids(Written(t)[..t.saved + 1]) == Ids(Written(t)[..t.saved]) + {item.paintingId}
            && Qty(Lines(t.op), item.paintingId) == item.quantity
            && (item.paintingId in ps ==> item.paintingId in t.seen)
  {
    WrittenAreLines(t);
    WrittenIsSeen(ps, t);
    hide Faithful, Ids, Qty, Written, Lines, MaySave, Distinct;
    var item := Written(t)[t.saved];
    PrefixIds(Written(t), t.saved);
    assert item in Written(t);
    QtyIn(Lines(t.op), item);
  }

  // A row is written only once it has been locked and read.
  lemma WrittenIsSeen(ps: Paintings, t: Txn)
    requires Faithful(ps, t) && MaySave(t)
    ensures Positions(t) && t.saved < |Written(t)| && Distinct(Lines(t.op))
    ensures Written(t)[t.saved].paintingId in ps ==> Written(t)[t.saved].paintingId in t.seen
  {
    hide ChecksStand, WorkStands, Qty, Distinct;
    WrittenAreLines(t);
    var item := Written(t)[t.saved];
    if t.op.Uncancel? {
      assert t.plan[..t.locked] == t.plan;
      assert item in Written(t);
    } else {
      assert item in t.plan[..t.locked];
    }
    assert item.paintingId in Ids(t.plan[..t.locked]);
  }

  // Rows under somebody's lock cannot move beneath them.
  lemma OthersCommit(before: Paintings, after: Paintings, t: Txn)
    requires Faithful(before, t)
    requires after.Keys == before.Keys && forall p :: p in t.seen ==> after[p] == before[p]
    ensures Faithful(after, t)
  {
    WorkIsHeld(before, t);
    forall i | 0 <= i < Reached(t) ensures Check(after, t.op, t.plan[i]) == Check(before, t.op, t.plan[i]) {
      assert t.plan[i] in t.plan[..Reached(t)];
    }
  }

  lemma AllRowsWork(ps: Paintings, t: Txn)
    requires Faithful(ps, t) && MayCommit(t)
    ensures ps + t.work == if t.op.Cancel? then Restored(ps, Lines(t.op)) else Taken(ps, Lines(t.op))
    ensures t.seen.Keys == Ids(t.plan) * ps.Keys
    ensures forall item :: item in t.plan ==> Check(ps, t.op, item)
  {
    hide Distinct, StockOrder, CanSell, CanTakeBack, Qty, Sell, Restock, Ids;
    WrittenAreLines(t);
    assert t.plan[..t.locked] == t.plan && Written(t)[..t.saved] == Written(t);
    assert t.work.Keys == Ids(Lines(t.op)) * ps.Keys;
    forall p | p in ps
      ensures (ps + t.work)[p] == if p in Ids(Lines(t.op)) then MovedRow(t.op, ps[p], Qty(Lines(t.op), p)) else ps[p]
    {
    }
  }

  // ---- commit and rollback against the reference ----

  // However the locks were interleaved, a commit publishes exactly what the
  // transaction would have done alone at that moment.
  lemma CommitIsBody(s: Shop, t: Txn)
    requires Faithful(s.paintings, t) && MayCommit(t)
    ensures Body(s, t.op) == Ok(Committed(s, t))
  {
    hide Faithful, Distinct, StockOrder, Taken, Restored, Qty, ItemsTotal, CanSell, CanTakeBack;
    AllRowsWork(s.paintings, t);
    match t.op {
      case Checkout(who, lines, quote) => PricesSeen(s, t);
      case Cancel(_, id, order) =>
        if order.isCommission {
          NothingWritten(s.paintings, t);
        }
      case Uncancel(id, order, status, _) =>
        if order.isCommission {
          NothingWritten(s.paintings, t);
        } else {
          LinesChecked(s.paintings, t);
        }
    }
  }

  lemma NothingWritten(ps: Paintings, t: Txn)
    requires Faithful(ps, t) && Lines(t.op) == []
    ensures ps + t.work == ps
  {
  }

  lemma LinesChecked(ps: Paintings, t: Txn)
    requires Faithful(ps, t) && MayCommit(t) && t.op.Uncancel?
    ensures CanTakeBackAll(ps, Lines(t.op))
  {
    AllRowsWork(ps, t);
    WrittenAreLines(t);
  }

  // The prices an order records are the prices on the locked rows.
  lemma PricesSeen(s: Shop, t: Txn)
    requires Faithful(s.paintings, t) && MayCommit(t) && t.op.Checkout?
    ensures t.plan == StockOrder(t.op.lines)
    ensures CanSellAll(s.paintings, t.plan) && Ids(t.plan) <= s.paintings.Keys
    ensures seq(|t.plan|, i requires 0 <= i < |t.plan| => PriceSeen(t, t.plan[i])) == O.Priced(s.paintings, t.plan)
  {
    PlanIsSeen(s.paintings, t);
    hide Faithful, MayCommit, CanSellAll, StockOrder;
    forall i | 0 <= i < |t.plan| ensures t.plan[i].paintingId in Ids(t.plan) {
      assert t.plan[i] in t.plan;
    }
  }

  lemma PlanIsSeen(ps: Paintings, t: Txn)
    requires Faithful(ps, t) && MayCommit(t) && t.op.Checkout?
    ensures t.plan == StockOrder(t.op.lines)
    ensures CanSellAll(ps, t.plan) && Ids(t.plan) <= ps.Keys
    ensures forall i :: 0 <= i < |t.plan| ==>
              t.plan[i].paintingId in t.seen && t.seen[t.plan[i].paintingId] == ps[t.plan[i].paintingId]
  {
    hide WorkStands, Qty, Distinct, StockOrder;
    assert t.plan[..Reached(t)] == t.plan;
    forall i | 0 <= i < |t.plan| ensures Check(ps, t.op, t.plan[i]) && t.plan[i].paintingId in Ids(t.plan) {
      assert t.plan[i] in t.plan;
    }
  }

  // A transaction rolls back only where it would have been refused alone.
  lemma RollbackIsRejection(s: Shop, t: Txn)
    requires Faithful(s.paintings, t) && t.phase == Failing
    ensures Body(s, t.op) == Err(OutOfStock)
  {
    WrittenAreLines(t);
    var item := t.plan[t.locked];
    assert item in t.plan && item in Lines(t.op);
  }

  // ---- every step keeps the invariant ----

  lemma LockKeeps(w: World, t: nat)
    requires Inv(w) && Enabled(w, Lock(t))
    ensures Inv(Step(w, Lock(t)))
  {
    hide Faithful, Locked;
    LockedIsFaithful(w.shop.paintings, w.txns[t]);
  }

  lemma SaveKeeps(w: World, t: nat)
    requires Inv(w) && Enabled(w, Save(t))
    ensures Inv(Step(w, Save(t)))
  {
    hide Faithful, Saved;
    SavedIsFaithful(w.shop.paintings, w.txns[t]);
  }

  lemma CommitKeeps(w: World, t: nat)
    requires Inv(w) && Enabled(w, Commit(t))
    ensures Inv(Step(w, Commit(t)))
  {
    hide Faithful;
    var w' := Step(w, Commit(t));
    var ps, ps' := w.shop.paintings, w'.shop.paintings;
    WorkIsHeld(ps, w.txns[t]);
    assert ps' == ps + w.txns[t].work;
    forall u | 0 <= u < |w'.txns| && w'.txns[u].phase != Finished ensures Faithful(ps', w'.txns[u]) {
      assert u != t && Held(w.txns[u]) !! Held(w.txns[t]);
      WorkIsHeld(ps, w.txns[u]);
      OthersCommit(ps, ps', w.txns[u]);
    }
  }

  lemma StepKeeps(w: World, l: Label)
    requires Inv(w) && Enabled(w, l)
    ensures Inv(Step(w, l))
  {
    match l {
      case Begin(op) => BegunIsFaithful(w.shop.paintings, op);
      case Lock(t) => LockKeeps(w, t);
      case Save(t) => SaveKeeps(w, t);
      case Commit(t) => CommitKeeps(w, t);
      case Rollback(t) =>
    }
  }

  // One step of the interleaved machine is one step of the serial one, or none.
  lemma StepRefines(w: World, l: Label)
    requires Inv(w) && Enabled(w, l)
    ensures Inv(Step(w, l))
    ensures match l
            case Commit(t) => Body(w.shop, w.txns[t].op) == Ok(Step(w, l).shop)
            case Rollback(t) => Body(w.shop, w.txns[t].op) == Err(OutOfStock) && Step(w, l).shop == w.shop
            case _ => Step(w, l).shop == w.shop
  {
    StepKeeps(w, l);
    match l {
      case Commit(t) => CommitIsBody(w.shop, w.txns[t]);
      case Rollback(t) => RollbackIsRejection(w.shop, w.txns[t]);
      case _ =>
    }
  }
}
