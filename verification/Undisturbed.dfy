/** What signing in, refreshing and signing out are for: a browser that does one
    of them from beginning to end with nothing in between. */
module Undisturbed {
  import opened Wrappers
  import opened Sessions
  import opened Browsers

  // ---- signing in ----

  function NewBrowser(w: World, userId: int, userAgent: string, later: int): seq<Label> {
    [Open] + ([SignIn(|w.browsers|, userId, userAgent)] + ([Tick(later)] + []))
  }

  // It has a token one row holds, good for thirty days; no other browser and
  // no other row has changed.
  lemma SigningInWorks(w: World, userId: int, userAgent: string, later: int)
    requires Linked(w) && w.now <= later
    ensures var ls := NewBrowser(w, userId, userAgent, later);
            && CanRun(w, ls)
            && var after, t := After(w, ls), Sign(w.table, userId, w.now);
               && after.browsers == w.browsers + [Browser(Some(t), Grounded, Staying)] && after.now == later
               && t.userId == userId && Stored(after.table, t)
               && (Verifies(t, after.now) <==> later / 1000 - w.now / 1000 < 30 * 24 * 60 * 60)
               && OfUser(after.table, userId) == OfUser(w.table, userId) + {w.table.nextId}
               && after.table.sessions - {w.table.nextId} == w.table.sessions
               && after.table.sessions[w.table.nextId].userAgent == userAgent
               && after.revocations == w.revocations
  {
    var n := |w.browsers|;
    var w1 := Step(w, Open);
    var w2 := Step(w1, SignIn(n, userId, userAgent));
    var w3 := Step(w2, Tick(later));
    OpenThenSignIn(w, userId, userAgent);
    IssueOk(w.table, userId, userAgent, w.now);
    IssuedRow(w.table, userId, userAgent, w.now);
    hide Step, Linked, Stored, Issue, OfUser;
    TickStep(w2, later);
    NoMore(w3);
    OneFirst(w2, Tick(later), []);
    OneFirst(w1, SignIn(n, userId, userAgent), [Tick(later)] + []);
    OneFirst(w, Open, [SignIn(n, userId, userAgent)] + ([Tick(later)] + []));
  }

  lemma OpenThenSignIn(w: World, userId: int, userAgent: string)
    ensures Enabled(w, Open) && Enabled(Step(w, Open), SignIn(|w.browsers|, userId, userAgent))
    ensures Step(Step(w, Open), SignIn(|w.browsers|, userId, userAgent))
            == w.(browsers := w.browsers + [Browser(Some(Sign(w.table, userId, w.now)), Grounded, Staying)],
                  table := Issue(w.table, userId, userAgent, w.now))
  {
  }

  lemma TickStep(w: World, to: int)
    requires w.now <= to
    ensures Enabled(w, Tick(to)) && Step(w, Tick(to)) == w.(now := to)
  {
  }

  lemma IssuedRow(table: Table, userId: int, userAgent: string, now: int)
    requires TableOk(table)
    ensures var after := Issue(table, userId, userAgent, now);
            && after.sessions - {table.nextId} == table.sessions && table.nextId in after.sessions
            && after.sessions[table.nextId].userAgent == userAgent
            && OfUser(after, userId) == OfUser(table, userId) + {table.nextId}
  {
    assert table.nextId !in table.sessions by {
      assert forall id :: id in table.sessions ==> RowOk(table, id);
    }
  }

  // ---- refreshing ----

  function Refreshed(b: nat): seq<Label> {
    [StartRefresh(b)] + ([Lookup(b)] + ([Write(b)] + ([Settle(b)] + [])))
  }

  // The browser has a new token in place of the one it showed, in the same
  // row; no other browser and no other row has changed.
  lemma RefreshingWorks(w: World, b: nat, t: Token)
    requires InUse(w, b, t)
    ensures CanRun(w, Refreshed(b))
    ensures var after, signed := After(w, Refreshed(b)), Sign(w.table, t.userId, w.now);
            && after.browsers == w.browsers[b := w.browsers[b].(cookie := Some(signed))]
            && signed != t && Stored(after.table, signed) && !Stored(after.table, t)
            && after.table.sessions.Keys == w.table.sessions.Keys
            && (forall k :: k in w.table.sessions && !Holds(w.table, k, t) ==>
                  after.table.sessions[k] == w.table.sessions[k])
            && OfUser(after.table, t.userId) == OfUser(w.table, t.userId) && after.revocations == w.revocations
  {
    var id :| id in w.table.sessions && Holds(w.table, id, t);
    FoundInUse(w, b, id, t);
    var signed := Sign(w.table, t.userId, w.now);
    var w1 := Fly(w, b, Sent(t));
    var w2 := Fly(w, b, Found(id, t));
    var w3 := Rotating(Fly(w, b, Answered(signed, t)), id, t);
    var w4 := Put(w3, b, w.browsers[b].(cookie := Some(signed), flight := Grounded));
    RefreshSteps(w, b, id, t);
    RotatedRow(w.table, id, t, w.now);
    RotateOk(w.table, id, t, w.now);
    hide Step, Enabled, Linked, Stored, OfUser, Rotate, FindRow;
    NoMore(w4);
    OneFirst(w3, Settle(b), []);
    OneFirst(w2, Write(b), [Settle(b)] + []);
    OneFirst(w1, Lookup(b), [Write(b)] + ([Settle(b)] + []));
    OneFirst(w, StartRefresh(b), [Lookup(b)] + ([Write(b)] + ([Settle(b)] + [])));
  }

  lemma RefreshSteps(w: World, b: nat, id: nat, t: Token)
    requires InUse(w, b, t) && FindRow(w.table, w.table.nextId, t) == Some(id) && w.now < w.table.sessions[id].expiresAt
    ensures var signed := Sign(w.table, t.userId, w.now);
            var w1, w2 := Fly(w, b, Sent(t)), Fly(w, b, Found(id, t));
            var w3 := Rotating(Fly(w, b, Answered(signed, t)), id, t);
            && Enabled(w, StartRefresh(b)) && Step(w, StartRefresh(b)) == w1
            && Enabled(w1, Lookup(b)) && Step(w1, Lookup(b)) == w2
            && Enabled(w2, Write(b)) && Step(w2, Write(b)) == w3
            && Enabled(w3, Settle(b))
            && Step(w3, Settle(b)) == Put(w3, b, w.browsers[b].(cookie := Some(signed), flight := Grounded))
  {
    hide Linked, FindRow, Stored, Rotate;
  }

  lemma RotatedRow(table: Table, id: nat, t: Token, now: int)
    requires TableOk(table) && Holds(table, id, t)
    ensures t.userId == table.sessions[id].userId && Sign(table, t.userId, now) != t
    ensures var after := Rotate(table, id, t, now);
            && after.sessions.Keys == table.sessions.Keys
            && (forall k :: k in table.sessions && !Holds(table, k, t) ==> after.sessions[k] == table.sessions[k])
            && OfUser(after, t.userId) == OfUser(table, t.userId)
  {
    assert RowOk(table, id);
  }

  // ---- signing out ----

  function SignedOut(b: nat): seq<Label> {
    [Post(b)] + ([Delete(b)] + ([Clear(b)] + []))
  }

  // The browser's own session ends, and no other; it has no token left.
  lemma SigningOutWorks(w: World, b: nat, t: Token)
    requires InUse(w, b, t)
    ensures CanRun(w, SignedOut(b))
    ensures var after := After(w, SignedOut(b));
            && after.browsers == w.browsers[b := w.browsers[b].(cookie := None)] && !Stored(after.table, t)
            && (forall k :: k in after.table.sessions <==> k in w.table.sessions && !Holds(w.table, k, t))
            && (forall k :: k in after.table.sessions ==> after.table.sessions[k] == w.table.sessions[k])
            && after.revocations == w.revocations
  {
    var browser := w.browsers[b];
    var w1 := Put(w, b, browser.(exit := Posted(Some(t))));
    var w2 := Ending(Put(w, b, browser.(exit := Ended)), WithHash(w.table, t));
    var w3 := w2.(browsers := w.browsers[b := browser.(cookie := None)]);
    assert Enabled(w, Post(b)) && Step(w, Post(b)) == w1;
    assert Enabled(w1, Delete(b)) && Step(w1, Delete(b)) == w2;
    assert Enabled(w2, Clear(b)) && Step(w2, Clear(b)) == w3;
    OnlyThatRow(w.table, t);
    hide Step, Enabled, Linked, Stored, WithHash;
    NoMore(w3);
    OneFirst(w2, Clear(b), []);
    OneFirst(w1, Delete(b), [Clear(b)] + []);
    OneFirst(w, Post(b), [Delete(b)] + ([Clear(b)] + []));
  }

  lemma OnlyThatRow(table: Table, t: Token)
    ensures var after := Without(table, WithHash(table, t));
            && !Stored(after, t)
            && (forall k :: k in after.sessions <==> k in table.sessions && !Holds(table, k, t))
            && (forall k :: k in after.sessions ==> after.sessions[k] == table.sessions[k])
  {
  }
}
