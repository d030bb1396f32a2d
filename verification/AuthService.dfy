/** The session half of the auth service, one request at a time. */
module AuthService {
  import opened Wrappers
  import opened Sessions
  import opened PasswordLinks

  // The ids of an account's rows, in id order.
  function UserRows(table: Table, n: nat, userId: int): (ids: seq<nat>)
    ensures forall id :: id in ids <==> id < n && id in OfUser(table, userId)
  {
    if n == 0 then []
    else UserRows(table, n - 1, userId) + if n - 1 in OfUser(table, userId) then [n - 1] else []
  }

  class SessionStore {
    var table: Table

    constructor ()
      ensures TableOk(table) && table.sessions == map[]
    {
      table := Table(map[], 0, 0);
    }

    method IssueSession(userId: int, userAgent: string, now: int) returns (token: Token)
      requires TableOk(table)
      modifies this
      ensures TableOk(table) && Stored(table, token) && token.userId == userId
      ensures forall t :: Stored(table, t) ==> t == token || Stored(old(table), t)
      ensures |table.sessions| == |old(table).sessions| + 1
    {
      token := Sign(table, userId, now);
      IssueOk(table, userId, userAgent, now);
      assert forall id :: id in table.sessions ==> RowOk(table, id);
      table := Issue(table, userId, userAgent, now);
      forall t | Stored(table, t) && t != token ensures Stored(old(table), t) {
        var id :| id in table.sessions && Holds(table, id, t);
        assert Holds(old(table), id, t);
      }
    }

    // `known` and `active` are what looking the account up found.
    method Refresh(cookie: Option<Token>, known: bool, active: bool, now: int) returns (answer: Option<Token>)
      requires TableOk(table)
      modifies this
      ensures TableOk(table)
      ensures answer.Some? <==>
                cookie.Some? && Verifies(cookie.value, now) && Stored(old(table), cookie.value) && known && active
      // A good token is exchanged for one that is good in its place.
      ensures answer.Some? ==>
                && Stored(table, answer.value) && !Stored(table, cookie.value)
                && answer.value.userId == cookie.value.userId
                && table.sessions.Keys == old(table).sessions.Keys
                && forall t :: Stored(old(table), t) && t != cookie.value ==> Stored(table, t)
      // No cookie, or one that is not a live token of ours: nothing happens.
      ensures cookie.None? || !Verifies(cookie.value, now) ==> table == old(table)
      // A live token no row holds, or a deactivated account: all its sessions end.
      ensures cookie.Some? && Verifies(cookie.value, now)
              && (!Stored(old(table), cookie.value) || (known && !active)) ==>
                table.sessions == old(table).sessions - OfUser(old(table), cookie.value.userId)
      // An account that has been deleted: just this row goes.
      ensures cookie.Some? && Verifies(cookie.value, now) && Stored(old(table), cookie.value) && !known ==>
                table.sessions == old(table).sessions - WithHash(old(table), cookie.value)
    {
      if cookie.None? || !Verifies(cookie.value, now) {
        return None;
      }
      var t := cookie.value;
      var session := FindRow(table, table.nextId, t);
      if session.None? {
        assert !Stored(table, t) by {
          forall id | id in table.sessions ensures !Holds(table, id, t) {
            assert RowOk(table, id);
          }
        }
        WithoutOk(table, OfUser(table, t.userId));
        table := ReuseDetected(table, t);
        return None;
      }
      var id := session.value;
      assert Stored(table, t) && WithHash(table, t) == {id};
      assert RowOk(table, id);
      // A row outlives its token, so the check on the row's own expiry that
      // comes next never fires for a token that verified.
      LiveRowNotExpired(table, id, t, now);
      assert now < table.sessions[id].expiresAt;
      if !known {
        WithoutOk(table, {id});
        table := Without(table, {id});
        return None;
      }
      if !active {
        WithoutOk(table, OfUser(table, t.userId));
        table := Without(table, OfUser(table, t.userId));
        return None;
      }
      answer := Some(Sign(table, t.userId, now));
      RotateOk(table, id, t, now);
      table := Rotate(table, id, t, now);
    }

    method LogoutByRefreshToken(cookie: Option<Token>)
      requires TableOk(table)
      modifies this
      ensures TableOk(table)
      ensures forall t :: Stored(table, t) <==> Stored(old(table), t) && cookie != Some(t)
    {
      if cookie.Some? {
        WithoutOk(table, WithHash(table, cookie.value));
        ghost var before := table;
        table := Without(table, WithHash(table, cookie.value));
        forall t | Stored(before, t) && t != cookie.value ensures Stored(table, t) {
          var id :| id in before.sessions && Holds(before, id, t);
          assert id !in WithHash(before, cookie.value);
        }
      }
    }

    // Sign out everywhere; `ended` says from how many devices.
    method LogoutEverywhere(userId: int) returns (ended: nat)
      requires TableOk(table)
      modifies this
      ensures TableOk(table)
      ensures forall t :: Stored(table, t) <==> Stored(old(table), t) && t.userId != userId
      ensures ended == |old(table).sessions| - |table.sessions|
    {
      ghost var before := table;
      var gone := OfUser(table, userId);
      WithoutOk(table, gone);
      table := Without(table, gone);
      ended := |gone|;
      OnlyThisDeviceStays(before, userId, None);
      assert gone == OthersOf(before, userId, None);
      RowsLeft(before, gone);
    }

    // Another account's session id ends nothing.
    method EndSession(userId: int, id: nat) returns (found: bool)
      requires TableOk(table)
      modifies this
      ensures TableOk(table)
      ensures found <==> id in OfUser(old(table), userId)
      ensures table.sessions == if found then old(table).sessions - {id} else old(table).sessions
    {
      found := id in table.sessions && table.sessions[id].userId == userId;
      if found {
        WithoutOk(table, {id});
        table := Without(table, {id});
      }
    }

    // The loop changing a password ends with: row by row, sparing the one
    // device that can show the current token.
    method EndOthers(userId: int, keep: Option<Token>)
      requires TableOk(table)
      modifies this
      ensures TableOk(table)
      ensures table == Without(old(table), OthersOf(old(table), userId, keep))
    {
      // The rows as they were loaded; the deletes below go by id.
      var before := table;
      var ids := UserRows(before, before.nextId, userId);
      ghost var gone: set<nat> := {};
      assert before == Without(before, {});
      for i := 0 to |ids|
        invariant gone == set id | id in ids[..i] && id in OthersOf(before, userId, keep)
        invariant table == Without(before, gone)
      {
        assert ids[..i + 1] == ids[..i] + [ids[i]];
        var session := ids[i];
        assert session in ids;
        if keep.Some? && before.sessions[session].tokenHash == Sha256(keep.value) {
          continue;
        }
        table := Without(table, {session});
        gone := gone + {session};
      }
      assert ids[..|ids|] == ids;
      assert gone == OthersOf(before, userId, keep) by {
        forall id | id in OthersOf(before, userId, keep) ensures id in ids {
          assert RowOk(before, id);
        }
      }
      WithoutOk(before, gone);
    }
  }

  lemma RowsLeft(table: Table, gone: set<nat>)
    requires gone <= table.sessions.Keys
    ensures |Without(table, gone).sessions| == |table.sessions| - |gone|
  {
  }

  class PasswordResets {
    var links: map<nat, Link>
    var next: nat
    const store: SessionStore

    ghost predicate Valid()
      reads this
    {
      forall id :: id in links ==> id < next
    }

    constructor (store: SessionStore)
      ensures Valid() && links == map[] && this.store == store
    {
      links, next, this.store := map[], 0, store;
    }

    // `account` is the one the address belongs to, if any; `active` whether it
    // may sign in. The caller is told the same either way.
    method RequestPasswordReset(account: Option<int>, active: bool, now: int) returns (link: Option<nat>)
      requires Valid()
      modifies this
      ensures Valid()
      ensures link.Some? <==> account.Some? && active
      ensures link.None? ==> links == old(links)
      ensures link.Some? ==>
                && Live(links, link.value, now) && link.value !in old(links)
                && (forall id :: id in links && links[id].userId == account.value ==> id == link.value)
                && WithoutLinksOf(links, account.value) == WithoutLinksOf(old(links), account.value)
    {
      if account.None? || !active {
        return None;
      }
      links := WithoutLinksOf(links, account.value);
      link := Some(next);
      links := links[next := Link(account.value, now + RESET_TTL_MS, false)];
      next := next + 1;
    }

    // `known` is whether the link's account still exists. A new password signs
    // the account out everywhere.
    method ResetPassword(id: nat, known: bool, now: int) returns (ok: bool)
      requires Valid() && TableOk(store.table)
      modifies this, store
      ensures Valid() && TableOk(store.table)
      ensures ok <==> Live(old(links), id, now) && known
      ensures !ok ==> links == old(links) && store.table == old(store.table)
      ensures ok ==> !Live(links, id, now) && links - {id} == old(links) - {id}
      ensures ok ==> forall t :: Stored(store.table, t) <==>
                Stored(old(store.table), t) && t.userId != old(links)[id].userId
    {
      hide Stored, TableOk, Holds;
      if id !in links || links[id].used || links[id].expiresAt <= now || !known {
        return false;
      }
      var userId := links[id].userId;
      links := links[id := links[id].(used := true)];
      var ended := store.LogoutEverywhere(userId);
      return true;
    }
  }

  // After a password change, the account's only row is the one that made it.
  lemma OnlyThisDeviceStays(table: Table, userId: int, keep: Option<Token>)
    requires TableOk(table)
    ensures var after := Without(table, OthersOf(table, userId, keep));
            && (forall t :: Stored(after, t) && t.userId == userId ==> keep == Some(t))
            && (keep.Some? && Stored(table, keep.value) ==> Stored(after, keep.value))
            && (forall t: Token :: t.userId != userId ==> (Stored(after, t) <==> Stored(table, t)))
  {
    var gone := OthersOf(table, userId, keep);
    var after := Without(table, gone);
    WithoutOk(table, gone);
    forall t | Stored(after, t) && t.userId == userId ensures keep == Some(t) {
      var id :| id in after.sessions && Holds(after, id, t);
      assert RowOk(table, id);
    }
    forall t | Stored(table, t) && (keep == Some(t) || t.userId != userId) ensures Stored(after, t) {
      var id :| id in table.sessions && Holds(table, id, t);
      assert RowOk(table, id);
      assert id !in gone;
    }
  }
}
