/** The cart: one row per identity and painting, and what signing in does to it. */
module CartRules {
  import opened Wrappers
  import opened Entities
  import opened Tables

  function Min(a: int, b: int): int {
    if a <= b then a else b
  }

  function AddItem(s: Shop, who: Identity, p: int, quantity: int): Result<Shop, Rejection> {
    if p !in s.paintings then Err(NotFound)
    else if !s.paintings[p].isAvailable || s.paintings[p].amount <= 0 then Err(NotForSale)
    else
      match RowOf(s.cart, s.nextCart, who, p)
      case Some(id) =>
        var row := s.cart[id];
        Ok(s.(cart := s.cart[id := row.(quantity := Min(row.quantity + quantity, s.paintings[p].amount))]))
      case None =>
        Ok(s.(cart := s.cart[s.nextCart := CartRow(who, p, Min(quantity, s.paintings[p].amount))],
              nextCart := s.nextCart + 1))
  }

  function UpdateItem(s: Shop, who: Identity, p: int, quantity: int): Result<Shop, Rejection> {
    match RowOf(s.cart, s.nextCart, who, p)
    case None => Err(NotFound)
    case Some(id) =>
      if p !in s.paintings then Err(NotFound)
      else if !s.paintings[p].isAvailable then Err(NotForSale)
      else if quantity > s.paintings[p].amount then Err(NotEnoughCopies)
      else Ok(s.(cart := s.cart[id := s.cart[id].(quantity := quantity)]))
  }

  function RemoveItem(s: Shop, who: Identity, p: int): Result<Shop, Rejection> {
    match RowOf(s.cart, s.nextCart, who, p)
    case None => Err(NotFound)
    case Some(id) => Ok(s.(cart := s.cart - {id}))
  }

  function ClearCart(s: Shop, who: Identity): Shop {
    s.(cart := WithoutCartOf(s.cart, who))
  }

  // What a cart request does for the customers, line by line: it changes the
  // one line it names, and neither any other line of that cart nor anything in
  // another's.
  ghost predicate ChangesOnly(s: Shop, after: Shop, who: Identity, p: int, line: Option<int>) {
    && CartValid(after) && InCart(after, who, p) == line
    && forall other, q :: other != who || q != p ==> InCart(after, other, q) == InCart(s, other, q)
  }

  lemma RequestsChangeOneLine(s: Shop, who: Identity, p: int, quantity: int)
    requires CartValid(s)
    ensures AddItem(s, who, p, quantity).Ok? ==>
              ChangesOnly(s, AddItem(s, who, p, quantity).value, who, p,
                          Some(Min(CopiesIn(s, who, p) + quantity, s.paintings[p].amount)))
    ensures UpdateItem(s, who, p, quantity).Ok? ==>
              ChangesOnly(s, UpdateItem(s, who, p, quantity).value, who, p, Some(quantity))
    ensures RemoveItem(s, who, p).Ok? ==> ChangesOnly(s, RemoveItem(s, who, p).value, who, p, None)
  {
    hide AddItem, UpdateItem, RemoveItem, ChangesOnly;
    var id := RowOf(s.cart, s.nextCart, who, p);
    var cap := if p in s.paintings then s.paintings[p].amount else 0;
    var capped := Min(CopiesIn(s, who, p) + quantity, cap);
    if id.Some? {
      LineRewritten(s, id.value, capped);
      LineRewritten(s, id.value, quantity);
      LineGone(s, id.value);
    } else if p in s.paintings {
      LineAdded(s, who, p, capped);
    }
    RequestsAre(s, who, p, quantity);
  }

  // When each is accepted: adding, when the painting is on sale with a copy
  // left; setting, when it is on sale with that many and already in the cart;
  // removing, when it is in the cart.
  lemma RequestsExactlyWhen(s: Shop, who: Identity, p: int, quantity: int)
    requires CartValid(s)
    ensures AddItem(s, who, p, quantity).Ok? <==> OnSale(s, p) && s.paintings[p].amount > 0
    ensures UpdateItem(s, who, p, quantity).Ok?
            <==> InCart(s, who, p).Some? && OnSale(s, p) && quantity <= s.paintings[p].amount
    ensures RemoveItem(s, who, p).Ok? <==> InCart(s, who, p).Some?
    ensures AddItem(s, who, p, quantity) == Err(NotFound) <==> p !in s.paintings
    ensures UpdateItem(s, who, p, quantity) == Err(NotFound) <==> InCart(s, who, p).None?
    ensures UpdateItem(s, who, p, quantity) == Err(NotEnoughCopies)
            <==> InCart(s, who, p).Some? && OnSale(s, p) && quantity > s.paintings[p].amount
  {
    var id := RowOf(s.cart, s.nextCart, who, p);
    assert id.Some? ==> s.cart[id.value].paintingId in s.paintings;
  }

  predicate OnSale(s: Shop, p: int) {
    p in s.paintings && s.paintings[p].isAvailable
  }

  function CopiesIn(s: Shop, who: Identity, p: int): int {
    match InCart(s, who, p)
    case Some(copies) => copies
    case None => 0
  }

  lemma RequestsAre(s: Shop, who: Identity, p: int, quantity: int)
    ensures var id := RowOf(s.cart, s.nextCart, who, p);
            var cap := if p in s.paintings then s.paintings[p].amount else 0;
            var capped := Min(CopiesIn(s, who, p) + quantity, cap);
            && (AddItem(s, who, p, quantity).Ok? ==>
                  p in s.paintings && AddItem(s, who, p, quantity).value ==
                    if id.Some? then Rewritten(s, id.value, capped) else Added(s, who, p, capped))
            && (UpdateItem(s, who, p, quantity).Ok? ==>
                  id.Some? && UpdateItem(s, who, p, quantity).value == Rewritten(s, id.value, quantity))
            && (RemoveItem(s, who, p).Ok? ==>
                  id.Some? && RemoveItem(s, who, p).value == s.(cart := s.cart - {id.value}))
  {
  }

  function Rewritten(s: Shop, id: nat, quantity: int): Shop
    requires id in s.cart
  {
    s.(cart := s.cart[id := s.cart[id].(quantity := quantity)])
  }

  function Added(s: Shop, who: Identity, p: int, quantity: int): Shop {
    s.(cart := s.cart[s.nextCart := CartRow(who, p, quantity)], nextCart := s.nextCart + 1)
  }

  // A line is what the only row with its key says.
  lemma SameLine(s: Shop, after: Shop, who: Identity, p: int)
    requires CartValid(s) && CartValid(after)
    requires forall id :: id in s.cart && s.cart[id].owner == who && s.cart[id].paintingId == p ==>
               id in after.cart && after.cart[id] == s.cart[id]
    requires forall id :: id in after.cart && after.cart[id].owner == who && after.cart[id].paintingId == p ==>
               id in s.cart && s.cart[id] == after.cart[id]
    ensures InCart(after, who, p) == InCart(s, who, p)
  {
    var row := RowOf(s.cart, s.nextCart, who, p);
    if row.Some? {
      InCartIs(after, row.value);
    }
  }

  lemma LineRewritten(s: Shop, id: nat, quantity: int)
    requires CartValid(s) && id in s.cart
    ensures ChangesOnly(s, Rewritten(s, id, quantity), s.cart[id].owner, s.cart[id].paintingId, Some(quantity))
  {
    var row, after := s.cart[id], Rewritten(s, id, quantity);
    InCartIs(after, id);
    forall other, q | other != row.owner || q != row.paintingId ensures InCart(after, other, q) == InCart(s, other, q) {
      SameLine(s, after, other, q);
    }
  }

  lemma LineGone(s: Shop, id: nat)
    requires CartValid(s) && id in s.cart
    ensures ChangesOnly(s, s.(cart := s.cart - {id}), s.cart[id].owner, s.cart[id].paintingId, None)
  {
    var row, after := s.cart[id], s.(cart := s.cart - {id});
    forall k | k in after.cart ensures !SameKey(after.cart[k], row) {
      assert s.cart[k] == after.cart[k];
    }
    forall other, q | other != row.owner || q != row.paintingId ensures InCart(after, other, q) == InCart(s, other, q) {
      SameLine(s, after, other, q);
    }
  }

  lemma LineAdded(s: Shop, who: Identity, p: int, quantity: int)
    requires CartValid(s) && p in s.paintings && RowOf(s.cart, s.nextCart, who, p).None?
    ensures ChangesOnly(s, Added(s, who, p, quantity), who, p, Some(quantity))
  {
    var after := Added(s, who, p, quantity);
    InCartIs(after, s.nextCart);
    forall other, q | other != who || q != p ensures InCart(after, other, q) == InCart(s, other, q) {
      SameLine(s, after, other, q);
    }
  }

  // What signing in means for one row: a guest's row moves over unless the
  // user already holds that painting; the user's row then takes both counts,
  // up to what there is; everyone else's rows stay as they were.
  predicate Folded(s: Shop, user: int, token: string, row: CartRow) {
    row.owner == Guest(token) && InCart(s, User(user), row.paintingId).Some?
  }

  function MergedRow(s: Shop, user: int, token: string, row: CartRow): CartRow {
    if row.owner == Guest(token) then
      row.(owner := User(user))
    else if row.owner == User(user) && InCart(s, Guest(token), row.paintingId).Some?
            && row.paintingId in s.paintings then
      row.(quantity :=
        Min(row.quantity + InCart(s, Guest(token), row.paintingId).value, s.paintings[row.paintingId].amount))
    else
      row
  }

  function MergeGuestCart(s: Shop, user: int, token: string): Shop {
    s.(cart := map id | id in s.cart && !Folded(s, user, token, s.cart[id]) :: MergedRow(s, user, token, s.cart[id]))
  }

  // The same thing seen from the customers' side, painting by painting.
  lemma MergeByPainting(s: Shop, user: int, token: string, p: int)
    requires CartValid(s)
    ensures CartValid(MergeGuestCart(s, user, token))
    ensures var after := MergeGuestCart(s, user, token);
            var mine, theirs := InCart(s, User(user), p), InCart(s, Guest(token), p);
            && InCart(after, Guest(token), p) == None
            && InCart(after, User(user), p) ==
               (if theirs.None? then mine
                else if mine.None? then theirs
                else Some(Min(mine.value + theirs.value, s.paintings[p].amount)))
            && forall other :: other != User(user) && other != Guest(token) ==>
                 InCart(after, other, p) == InCart(s, other, p)
  {
    var after := MergeGuestCart(s, user, token);
    MergeKeepsKeys(s, user, token);
    assert InCart(after, Guest(token), p) == None;
    var mine := RowOf(s.cart, s.nextCart, User(user), p);
    var theirs := RowOf(s.cart, s.nextCart, Guest(token), p);
    if mine.Some? {
      assert mine.value in after.cart;
      InCartIs(after, mine.value);
    } else if theirs.Some? {
      assert theirs.value in after.cart;
      InCartIs(after, theirs.value);
    } else {
      assert InCart(after, User(user), p) == None;
    }
    forall other | other != User(user) && other != Guest(token)
      ensures InCart(after, other, p) == InCart(s, other, p)
    {
      var row := RowOf(s.cart, s.nextCart, other, p);
      if row.Some? {
        assert row.value in after.cart && after.cart[row.value] == s.cart[row.value];
        InCartIs(after, row.value);
      }
    }
  }

  lemma MergeKeepsKeys(s: Shop, user: int, token: string)
    requires CartValid(s)
    ensures CartValid(MergeGuestCart(s, user, token))
  {
  }

  // Merging can leave a row that asks for nothing: exactly when both carts
  // hold a painting that has sold out in the meantime.
  ghost predicate SharesSoldOut(s: Shop, user: int, token: string) {
    exists p :: InCart(s, User(user), p).Some? && InCart(s, Guest(token), p).Some?
                && p in s.paintings && s.paintings[p].amount <= 0
  }

  ghost predicate CartPositive(s: Shop) {
    forall id :: id in s.cart ==> s.cart[id].quantity >= 1
  }

  lemma MergeKeepsPositive(s: Shop, user: int, token: string)
    requires CartValid(s) && CartPositive(s)
    ensures CartPositive(MergeGuestCart(s, user, token)) <==> !SharesSoldOut(s, user, token)
  {
    var after := MergeGuestCart(s, user, token);
    if SharesSoldOut(s, user, token) {
      var p :| InCart(s, User(user), p).Some? && InCart(s, Guest(token), p).Some?
               && p in s.paintings && s.paintings[p].amount <= 0;
      var id := RowOf(s.cart, s.nextCart, User(user), p).value;
      assert id in after.cart && after.cart[id].quantity <= 0;
    } else {
      forall id | id in after.cart ensures after.cart[id].quantity >= 1 {
        InCartIs(s, id);
        var row := s.cart[id];
        if row.owner == User(user) && InCart(s, Guest(token), row.paintingId).Some? {
          assert InCart(s, User(user), row.paintingId).Some?;
          assert s.paintings[row.paintingId].amount > 0;
        }
      }
    }
  }
}

module Cart {
  import opened Wrappers
  import opened Entities
  import opened Tables
  import opened CartRules

  class CartService {
    const db: Database

    constructor (db: Database)
      ensures this.db == db
    {
      this.db := db;
    }

    // A quantity left out is one. The row is capped at what there is.
    method AddItem(who: Identity, paintingId: int, quantity: Option<int>) returns (error: Option<Rejection>)
      modifies db
      ensures Follows(CartRules.AddItem(old(db.shop), who, paintingId, if quantity.Some? then quantity.value else 1),
                      old(db.shop), db.shop, error)
    {
      if paintingId !in db.shop.paintings {
        return Some(NotFound);
      }
      var painting := db.shop.paintings[paintingId];
      if !painting.isAvailable || painting.amount <= 0 {
        return Some(NotForSale);
      }
      var wanted := if quantity.Some? then quantity.value else 1;
      var existing := RowOf(db.shop.cart, db.shop.nextCart, who, paintingId);
      if existing.Some? {
        var item := db.shop.cart[existing.value];
        item := item.(quantity := Min(item.quantity + wanted, painting.amount));
        db.shop := db.shop.(cart := db.shop.cart[existing.value := item]);
      } else {
        var item := CartRow(who, paintingId, Min(wanted, painting.amount));
        db.shop := db.shop.(cart := db.shop.cart[db.shop.nextCart := item], nextCart := db.shop.nextCart + 1);
      }
      return None;
    }

    method UpdateItem(who: Identity, paintingId: int, quantity: int) returns (error: Option<Rejection>)
      modifies db
      ensures Follows(CartRules.UpdateItem(old(db.shop), who, paintingId, quantity), old(db.shop), db.shop, error)
    {
      var existing := RowOf(db.shop.cart, db.shop.nextCart, who, paintingId);
      if existing.None? || paintingId !in db.shop.paintings {
        return Some(NotFound);
      }
      var painting := db.shop.paintings[paintingId];
      if !painting.isAvailable {
        return Some(NotForSale);
      }
      if quantity > painting.amount {
        return Some(NotEnoughCopies);
      }
      var item := db.shop.cart[existing.value].(quantity := quantity);
      db.shop := db.shop.(cart := db.shop.cart[existing.value := item]);
      return None;
    }

    method RemoveItem(who: Identity, paintingId: int) returns (error: Option<Rejection>)
      modifies db
      ensures Follows(CartRules.RemoveItem(old(db.shop), who, paintingId), old(db.shop), db.shop, error)
    {
      var existing := RowOf(db.shop.cart, db.shop.nextCart, who, paintingId);
      if existing.None? {
        return Some(NotFound);
      }
      db.shop := db.shop.(cart := db.shop.cart - {existing.value});
      return None;
    }

    method ClearCart(who: Identity)
      modifies db
      ensures db.shop == CartRules.ClearCart(old(db.shop), who)
      ensures forall p :: InCart(db.shop, who, p) == None
    {
      db.shop := db.shop.(cart := WithoutCartOf(db.shop.cart, who));
    }

    // Takes the guest's rows one at a time, each against the table as the
    // earlier ones left it.
    method MergeGuestCart(userId: int, guestToken: string)
      requires CartValid(db.shop)
      modifies db
      ensures db.shop == CartRules.MergeGuestCart(old(db.shop), userId, guestToken)
    {
      hide PartlyMerged, CartValid, RowIds, RowOf, InCart;
      var guestItems := RowIds(db.shop.cart, db.shop.nextCart, Guest(guestToken));
      ghost var before := db.shop;
      NothingMerged(before, userId, guestToken);
      for i := 0 to |guestItems|
        invariant db.shop
                    == before.(cart := PartlyMerged(before, userId, guestToken, PaintingsOf(before, guestItems[..i])))
      {
        var guestItem := guestItems[i];
        MergeRound(before, userId, guestToken, guestItems, i);
        var theirs := db.shop.cart[guestItem];
        var existing := RowOf(db.shop.cart, db.shop.nextCart, User(userId), theirs.paintingId);
        if existing.Some? {
          var mine := db.shop.cart[existing.value];
          mine := mine.(quantity := Min(mine.quantity + theirs.quantity, db.shop.paintings[mine.paintingId].amount));
          db.shop := db.shop.(cart := db.shop.cart[existing.value := mine]);
          db.shop := db.shop.(cart := db.shop.cart - {guestItem});
        } else {
          db.shop := db.shop.(cart := db.shop.cart[guestItem := theirs.(owner := User(userId))]);
        }
      }
      assert guestItems[..|guestItems|] == guestItems;
      AllMerged(before, userId, guestToken);
    }
  }

  // The ids of an identity's rows, in id order.
  function RowIds(cart: map<nat, CartRow>, n: nat, who: Identity): seq<nat> {
    if n == 0 then []
    else if n - 1 in cart && cart[n - 1].owner == who then RowIds(cart, n - 1, who) + [n - 1]
    else RowIds(cart, n - 1, who)
  }

  lemma {:induction false} RowIdsAre(cart: map<nat, CartRow>, n: nat, who: Identity)
    ensures forall id :: id in RowIds(cart, n, who) <==> id in cart && id < n && cart[id].owner == who
    ensures forall i, j :: 0 <= i < j < |RowIds(cart, n, who)| ==> RowIds(cart, n, who)[i] < RowIds(cart, n, who)[j]
  {
    if n > 0 {
      RowIdsAre(cart, n - 1, who);
      var before := RowIds(cart, n - 1, who);
      forall k | 0 <= k < |before| ensures before[k] < n - 1 {
        assert before[k] in before;
      }
    }
  }

  ghost function PaintingsOf(s: Shop, ids: seq<nat>): set<int> {
    set id | id in ids && id in s.cart :: s.cart[id].paintingId
  }

  // The cart once the paintings in `done` have been dealt with.
  ghost function PartlyMerged(s: Shop, user: int, token: string, done: set<int>): map<nat, CartRow> {
    map id | id in s.cart && !(s.cart[id].paintingId in done && Folded(s, user, token, s.cart[id])) ::
      if s.cart[id].paintingId in done then MergedRow(s, user, token, s.cart[id]) else s.cart[id]
  }

  lemma NothingMerged(s: Shop, user: int, token: string)
    ensures PartlyMerged(s, user, token, PaintingsOf(s, RowIds(s.cart, s.nextCart, Guest(token))[..0])) == s.cart
  {
  }

  lemma AllMerged(s: Shop, user: int, token: string)
    requires CartValid(s)
    ensures PartlyMerged(s, user, token, PaintingsOf(s, RowIds(s.cart, s.nextCart, Guest(token))))
            == CartRules.MergeGuestCart(s, user, token).cart
  {
    var ids := RowIds(s.cart, s.nextCart, Guest(token));
    RowIdsAre(s.cart, s.nextCart, Guest(token));
    forall id | id in s.cart && s.cart[id].paintingId !in PaintingsOf(s, ids)
      ensures s.cart[id].owner != Guest(token) && InCart(s, Guest(token), s.cart[id].paintingId).None?
    {
      assert forall k :: k in ids ==> s.cart[k].paintingId != s.cart[id].paintingId;
    }
  }

  // RowOf looks at nothing but the rows for its painting.
  lemma {:induction false} RowOfFrame(a: map<nat, CartRow>, b: map<nat, CartRow>, n: nat, who: Identity, p: int)
    requires forall id :: id in a && a[id].paintingId == p ==> id in b && b[id] == a[id]
    requires forall id :: id in b && b[id].paintingId == p ==> id in a && a[id] == b[id]
    ensures RowOf(a, n, who, p) == RowOf(b, n, who, p)
  {
    if n > 0 {
      RowOfFrame(a, b, n - 1, who, p);
    }
  }

  // One round: what it finds, and what it leaves.
  lemma MergeRound(s: Shop, user: int, token: string, ids: seq<nat>, i: nat)
    requires CartValid(s) && ids == RowIds(s.cart, s.nextCart, Guest(token)) && i < |ids|
    ensures var now := PartlyMerged(s, user, token, PaintingsOf(s, ids[..i]));
            var later := PartlyMerged(s, user, token, PaintingsOf(s, ids[..i + 1]));
            var id := ids[i];
            && id in s.cart && id in now && now[id] == s.cart[id] && s.cart[id].paintingId in s.paintings
            && var existing := RowOf(now, s.nextCart, User(user), s.cart[id].paintingId);
               match existing
               case Some(mine) =>
                 && mine in now && now[mine].paintingId == s.cart[id].paintingId
                 && later == now[mine := now[mine].(quantity := Min(now[mine].quantity + s.cart[id].quantity,
                                                                    s.paintings[s.cart[id].paintingId].amount))] - {id}
               case None =>
                 later == now[id := s.cart[id].(owner := User(user))]
  {
    hide PartlyMerged, CartValid, RowIds, RowOf, PaintingsOf;
    var done := PaintingsOf(s, ids[..i]);
    NextPainting(s, token, ids, i);
    FindsTheSame(s, user, token, done, ids[i]);
    OneMorePainting(s, user, token, done, ids[i]);
  }

  lemma NextPainting(s: Shop, token: string, ids: seq<nat>, i: nat)
    requires CartValid(s) && ids == RowIds(s.cart, s.nextCart, Guest(token)) && i < |ids|
    ensures ids[i] in s.cart && s.cart[ids[i]].owner == Guest(token) && s.cart[ids[i]].paintingId in s.paintings
    ensures s.cart[ids[i]].paintingId !in PaintingsOf(s, ids[..i])
    ensures PaintingsOf(s, ids[..i + 1]) == PaintingsOf(s, ids[..i]) + {s.cart[ids[i]].paintingId}
  {
    RowIdsAre(s.cart, s.nextCart, Guest(token));
    var id := ids[i];
    assert id in ids;
    assert ids[..i + 1] == ids[..i] + [id];
    forall k | 0 <= k < i ensures s.cart[ids[k]].paintingId != s.cart[id].paintingId {
      assert ids[k] in ids && !SameKey(s.cart[ids[k]], s.cart[id]);
    }
  }

  lemma FindsTheSame(s: Shop, user: int, token: string, done: set<int>, id: nat)
    requires CartValid(s) && id in s.cart && s.cart[id].paintingId !in done
    ensures var p := s.cart[id].paintingId;
            var now := PartlyMerged(s, user, token, done);
            var existing := RowOf(s.cart, s.nextCart, User(user), p);
            && id in now && now[id] == s.cart[id]
            && RowOf(now, s.nextCart, User(user), p) == existing
            && (existing.Some? ==> existing.value in now && now[existing.value] == s.cart[existing.value]
                                   && s.cart[existing.value].paintingId == p)
  {
    RowOfFrame(PartlyMerged(s, user, token, done), s.cart, s.nextCart, User(user), s.cart[id].paintingId);
  }

  lemma OneMorePainting(s: Shop, user: int, token: string, done: set<int>, id: nat)
    requires CartValid(s) && id in s.cart && s.cart[id].owner == Guest(token)
    requires s.cart[id].paintingId !in done
    ensures var p := s.cart[id].paintingId;
            var now, later := PartlyMerged(s, user, token, done), PartlyMerged(s, user, token, done + {p});
            match RowOf(s.cart, s.nextCart, User(user), p)
            case Some(mine) =>
              later == now[mine := s.cart[mine].(quantity := Min(s.cart[mine].quantity + s.cart[id].quantity,
                                                                 s.paintings[p].amount))] - {id}
            case None =>
              later == now[id := s.cart[id].(owner := User(user))]
  {
    var p := s.cart[id].paintingId;
    InCartIs(s, id);
    OnlyRow(s, id);
    var mine := RowOf(s.cart, s.nextCart, User(user), p);
    if mine.Some? {
      OnlyRow(s, mine.value);
      TwoRowsFold(s, user, token, done, id, mine.value);
    } else {
      OneRowMoves(s, user, token, done, id);
    }
  }

  ghost predicate IsOnlyRow(s: Shop, id: nat)
    requires id in s.cart
  {
    forall k :: k in s.cart && s.cart[k].paintingId == s.cart[id].paintingId && s.cart[k].owner == s.cart[id].owner ==>
      k == id
  }

  lemma OnlyRow(s: Shop, id: nat)
    requires CartValid(s) && id in s.cart
    ensures IsOnlyRow(s, id)
  {
  }

  lemma TwoRowsFold(s: Shop, user: int, token: string, done: set<int>, id: nat, mine: nat)
    requires id in s.cart && s.cart[id].owner == Guest(token) && IsOnlyRow(s, id)
    requires mine in s.cart && s.cart[mine].owner == User(user) && IsOnlyRow(s, mine)
    requires s.cart[mine].paintingId == s.cart[id].paintingId && s.cart[id].paintingId in s.paintings
    requires s.cart[id].paintingId !in done
    requires RowOf(s.cart, s.nextCart, User(user), s.cart[id].paintingId) == Some(mine)
    requires RowOf(s.cart, s.nextCart, Guest(token), s.cart[id].paintingId) == Some(id)
    ensures var p := s.cart[id].paintingId;
            PartlyMerged(s, user, token, done + {p})
            == PartlyMerged(s, user, token, done)[mine := s.cart[mine].(quantity :=
                 Min(s.cart[mine].quantity + s.cart[id].quantity, s.paintings[p].amount))] - {id}
  {
  }

  lemma OneRowMoves(s: Shop, user: int, token: string, done: set<int>, id: nat)
    requires CartValid(s) && id in s.cart && s.cart[id].owner == Guest(token) && IsOnlyRow(s, id)
    requires s.cart[id].paintingId !in done
    requires RowOf(s.cart, s.nextCart, User(user), s.cart[id].paintingId) == None
    ensures PartlyMerged(s, user, token, done + {s.cart[id].paintingId})
            == PartlyMerged(s, user, token, done)[id := s.cart[id].(owner := User(user))]
  {
  }

  // ---- a merge that is cut short ----

  lemma PartKeepsKeys(s: Shop, user: int, token: string, done: set<int>)
    requires CartValid(s)
    ensures CartValid(s.(cart := PartlyMerged(s, user, token, done)))
  {
    var part := PartlyMerged(s, user, token, done);
    forall a, b | a in part && b in part && SameKey(part[a], part[b]) ensures a == b {
      InCartIs(s, a);
      InCartIs(s, b);
    }
  }

  // What a partly merged cart still holds for one painting.
  lemma PartHolds(s: Shop, user: int, token: string, done: set<int>, p: int)
    requires CartValid(s)
    ensures var part := s.(cart := PartlyMerged(s, user, token, done));
            if p in done then InCart(part, Guest(token), p) == None
            else InCart(part, Guest(token), p) == InCart(s, Guest(token), p)
                 && InCart(part, User(user), p) == InCart(s, User(user), p)
  {
    var part := PartlyMerged(s, user, token, done);
    if p !in done {
      RowOfFrame(part, s.cart, s.nextCart, Guest(token), p);
      RowOfFrame(part, s.cart, s.nextCart, User(user), p);
    }
  }

  // The rounds are separate writes. Cut short between two of them, the cart
  // still has one row per key, and merging again finishes the job.
  lemma MergeResumes(s: Shop, user: int, token: string, done: set<int>)
    requires CartValid(s)
    ensures var part := s.(cart := PartlyMerged(s, user, token, done));
            CartValid(part) && CartRules.MergeGuestCart(part, user, token) == CartRules.MergeGuestCart(s, user, token)
  {
    PartKeepsKeys(s, user, token, done);
    var part := s.(cart := PartlyMerged(s, user, token, done));
    forall id | id in s.cart
      ensures id in CartRules.MergeGuestCart(part, user, token).cart <==>
                id in CartRules.MergeGuestCart(s, user, token).cart
      ensures id in CartRules.MergeGuestCart(s, user, token).cart ==>
                CartRules.MergeGuestCart(part, user, token).cart[id]
                  == CartRules.MergeGuestCart(s, user, token).cart[id]
    {
      ResumedRow(s, user, token, done, id);
    }
    hide InCart, CartValid, Folded, MergedRow;
    assert CartRules.MergeGuestCart(part, user, token).cart == CartRules.MergeGuestCart(s, user, token).cart;
  }

  lemma ResumedRow(s: Shop, user: int, token: string, done: set<int>, id: nat)
    requires CartValid(s) && id in s.cart
    ensures var part := s.(cart := PartlyMerged(s, user, token, done));
            var again, once := CartRules.MergeGuestCart(part, user, token).cart,
              CartRules.MergeGuestCart(s, user, token).cart;
            (id in again <==> id in once) && (id in once ==> again[id] == once[id])
  {
    PartHolds(s, user, token, done, s.cart[id].paintingId);
    hide InCart, CartValid;
  }

  // The cart between the two writes of a round for painting p: the user's row
  // raised, the guest's not yet removed.
  function Torn(s: Shop, user: int, token: string, p: int): Shop {
    match RowOf(s.cart, s.nextCart, User(user), p)
    case Some(id) =>
      if p !in s.paintings then s
      else Rewritten(s, id, Min(CopiesIn(s, User(user), p) + CopiesIn(s, Guest(token), p), s.paintings[p].amount))
    case None => s
  }

  ghost predicate SharedBy(s: Shop, user: int, token: string, p: int) {
    InCart(s, User(user), p).Some? && InCart(s, Guest(token), p).Some?
  }

  lemma TornHolds(s: Shop, user: int, token: string, p: int)
    requires CartValid(s) && NoNegativeRow(s) && SharedBy(s, user, token, p)
    ensures p in s.paintings && CopiesIn(s, Guest(token), p) >= 0
    ensures var torn, amount := Torn(s, user, token, p), s.paintings[p].amount;
            && CartValid(torn) && torn.paintings == s.paintings
            && InCart(torn, User(user), p)
                 == Some(Min(CopiesIn(s, User(user), p) + CopiesIn(s, Guest(token), p), amount))
            && InCart(torn, Guest(token), p) == InCart(s, Guest(token), p)
  {
    var id := RowOf(s.cart, s.nextCart, User(user), p).value;
    assert s.cart[id].owner == User(user) && s.cart[id].paintingId == p;
    LineRewritten(s, id, Min(CopiesIn(s, User(user), p) + CopiesIn(s, Guest(token), p), s.paintings[p].amount));
  }

  // Cut short there, merging again counts the guest's copies twice: to no
  // effect exactly if there are none, or the stock had capped the row already.
  lemma TornRoundCountsTwice(s: Shop, user: int, token: string, p: int)
    requires CartValid(s) && NoNegativeRow(s) && SharedBy(s, user, token, p)
    ensures p in s.paintings
    ensures var mine, theirs, amount := CopiesIn(s, User(user), p), CopiesIn(s, Guest(token), p), s.paintings[p].amount;
            var once := InCart(CartRules.MergeGuestCart(s, user, token), User(user), p);
            var again := InCart(CartRules.MergeGuestCart(Torn(s, user, token, p), user, token), User(user), p);
            && again == Some(Min(Min(mine + theirs, amount) + theirs, amount))
            && (again == once <==> theirs == 0 || mine + theirs >= amount)
  {
    hide RowOf, InCart, CartValid, NoNegativeRow, Torn, CartRules.MergeGuestCart;
    TornHolds(s, user, token, p);
    MergeByPainting(s, user, token, p);
    MergeByPainting(Torn(s, user, token, p), user, token, p);
  }
}
