/** Browsers that refresh through the shared promise, against the server's
    session table: any number of both, in any interleaving, signing out at any
    moment, with sessions ended from elsewhere. */
module Browsers {
  import opened Wrappers
  import opened Sessions

  // The one refresh a browser may have in flight: sent with a token, its row
  // found, answered with a new token in exchange, or refused.
  datatype Flight = Grounded | Sent(t: Token) | Found(id: nat, t: Token) | Answered(answer: Token, t: Token) | Refused

  // A sign-out in flight: posted with the cookie of that moment, or carried
  // out at the server, its answer not yet back to clear the cookie.
  datatype Exit = Staying | Posted(t: Option<Token>) | Ended

  datatype Browser = Browser(cookie: Option<Token>, flight: Flight, exit: Exit)

  // `revocations` counts how often the server ended a whole account. The last
  // two are history: tokens a rotation replaced, and tokens whose row was
  // deleted or that were answered without ever being stored.
  datatype World = World(table: Table, now: int, browsers: seq<Browser>, revocations: nat, rotated: set<Token>,
                         gone: set<Token>)

  // `EndRows` is any other way of ending sessions: a device ended from the
  // list, signing out everywhere, a new password, a deactivated account.
  datatype Label =
    | Tick(to: int)
    | Open
    | SignIn(b: nat, userId: int, userAgent: string)
    | StartRefresh(b: nat)
    | Lookup(b: nat)
    | Write(b: nat)
    | Settle(b: nat)
    | Post(b: nat)
    | Delete(b: nat)
    | Clear(b: nat)
    | EndRows(ids: set<nat>)
    | Housekeeping(userId: int)

  predicate Enabled(w: World, l: Label) {
    match l
    case Tick(to) => w.now <= to
    case Open => true
    case SignIn(b, _, _) => b < |w.browsers|
    case StartRefresh(b) => b < |w.browsers| && w.browsers[b].flight == Grounded
    case Lookup(b) => b < |w.browsers| && w.browsers[b].flight.Sent?
    case Write(b) => b < |w.browsers| && w.browsers[b].flight.Found?
    case Settle(b) => b < |w.browsers| && (w.browsers[b].flight.Answered? || w.browsers[b].flight.Refused?)
    case Post(b) => b < |w.browsers| && w.browsers[b].exit == Staying
    case Delete(b) => b < |w.browsers| && w.browsers[b].exit.Posted?
    case Clear(b) => b < |w.browsers| && w.browsers[b].exit == Ended
    case EndRows(_) => true
    case Housekeeping(_) => true
  }

  function Put(w: World, b: nat, browser: Browser): World
    requires b < |w.browsers|
  {
    w.(browsers := w.browsers[b := browser])
  }

  function Fly(w: World, b: nat, flight: Flight): World
    requires b < |w.browsers|
  {
    Put(w, b, w.browsers[b].(flight := flight))
  }

  function TokensOf(table: Table, ids: set<nat>): set<Token> {
    set id | id in ids && id in table.sessions :: table.sessions[id].tokenHash.token
  }

  function Ending(w: World, ids: set<nat>): World {
    w.(table := Without(w.table, ids), gone := w.gone + TokensOf(w.table, ids))
  }

  function LookedUp(w: World, b: nat): World
    requires Enabled(w, Lookup(b))
  {
    var t := w.browsers[b].flight.t;
    if !Verifies(t, w.now) then Fly(w, b, Refused)
    else
      match FindRow(w.table, w.table.nextId, t)
      case None => Ending(Fly(w, b, Refused), OfUser(w.table, t.userId)).(revocations := w.revocations + 1)
      case Some(id) =>
        if w.table.sessions[id].expiresAt <= w.now then Ending(Fly(w, b, Refused), {id})
        else Fly(w, b, Found(id, t))
  }

  function Rotating(w: World, id: nat, t: Token): World {
    var landed := Holds(w.table, id, t);
    w.(table := Rotate(w.table, id, t, w.now),
       rotated := if landed then w.rotated + {t} else w.rotated,
       gone := if landed then w.gone else w.gone + {Sign(w.table, t.userId, w.now)})
  }

  function RowsWith(w: World, t: Option<Token>): set<nat> {
    match t
    case Some(t) => WithHash(w.table, t)
    case None => {}
  }

  function Step(w: World, l: Label): World
    requires Enabled(w, l)
  {
    match l
    case Tick(to) => w.(now := to)
    case Open => w.(browsers := w.browsers + [Browser(None, Grounded, Staying)])
    case SignIn(b, userId, userAgent) =>
      var signed := Sign(w.table, userId, w.now);
      Put(w, b, w.browsers[b].(cookie := Some(signed))).(table := Issue(w.table, userId, userAgent, w.now))
    case StartRefresh(b) =>
      Fly(w, b, if w.browsers[b].cookie.Some? then Sent(w.browsers[b].cookie.value) else Refused)
    case Lookup(b) => LookedUp(w, b)
    case Write(b) =>
      var id, t := w.browsers[b].flight.id, w.browsers[b].flight.t;
      Rotating(Fly(w, b, Answered(Sign(w.table, t.userId, w.now), t)), id, t)
    case Settle(b) =>
      var flight := w.browsers[b].flight;
      Put(w, b, w.browsers[b].(cookie := if flight.Answered? then Some(flight.answer) else w.browsers[b].cookie,
                               flight := Grounded))
    case Post(b) => Put(w, b, w.browsers[b].(exit := Posted(w.browsers[b].cookie)))
    case Delete(b) => Ending(Put(w, b, w.browsers[b].(exit := Ended)), RowsWith(w, w.browsers[b].exit.t))
    case Clear(b) => Put(w, b, w.browsers[b].(cookie := None, exit := Staying))
    case EndRows(ids) => Ending(w, ids)
    case Housekeeping(userId) => Ending(w, ExpiredOf(w.table, userId, w.now))
  }

  predicate CanRun(w: World, ls: seq<Label>)
    decreases |ls|
  {
    ls == [] || (Enabled(w, ls[0]) && CanRun(Step(w, ls[0]), ls[1..]))
  }

  function After(w: World, ls: seq<Label>): World
    requires CanRun(w, ls)
    decreases |ls|
  {
    if ls == [] then w else After(Step(w, ls[0]), ls[1..])
  }

  // ---- the invariant ----

  function FlightTokens(flight: Flight): set<Token> {
    match flight
    case Sent(t) => {t}
    case Found(_, t) => {t}
    case Answered(answer, t) => {answer, t}
    case _ => {}
  }

  function OptionToken(t: Option<Token>): set<Token> {
    if t.Some? then {t.value} else {}
  }

  function Tokens(browser: Browser): set<Token> {
    OptionToken(browser.cookie) + FlightTokens(browser.flight)
    + if browser.exit.Posted? then OptionToken(browser.exit.t) else {}
  }

  // In a row, or gone: not rotated away.
  predicate Kept(w: World, t: Token) {
    Stored(w.table, t) || t in w.gone
  }

  predicate FlightOk(w: World, flight: Flight) {
    match flight
    case Sent(t) => Kept(w, t)
    case Found(id, t) => Holds(w.table, id, t) || (t in w.gone && id < w.table.nextId)
    case Answered(answer, t) => Kept(w, answer) && (t in w.rotated || t in w.gone)
    case _ => true
  }

  predicate CookieOk(w: World, browser: Browser) {
    browser.cookie.Some? ==>
      Kept(w, browser.cookie.value) || (browser.flight.Answered? && browser.cookie.value == browser.flight.t)
  }

  predicate ExitOk(w: World, exit: Exit) {
    exit.Posted? && exit.t.Some? ==> Kept(w, exit.t.value) || exit.t.value in w.rotated
  }

  ghost predicate BrowserOk(w: World, browser: Browser) {
    && CookieOk(w, browser) && FlightOk(w, browser.flight) && ExitOk(w, browser.exit)
    && forall t :: t in Tokens(browser) ==> t.jti < w.table.nextJti
  }

  ghost predicate HistoryOk(w: World) {
    TableOk(w.table) && forall t :: t in w.gone || t in w.rotated ==> t.jti < w.table.nextJti && !Stored(w.table, t)
  }

  // No two browsers have a token in common, and what a browser has in play was
  // rotated away by nobody but itself.
  ghost predicate Linked(w: World) {
    && HistoryOk(w)
    && (forall b :: 0 <= b < |w.browsers| ==> BrowserOk(w, w.browsers[b]))
    && (forall a, b :: 0 <= a < b < |w.browsers| ==> Tokens(w.browsers[a]) !! Tokens(w.browsers[b]))
  }

  function Start(now: int): World {
    World(Table(map[], 0, 0), now, [], 0, {}, {})
  }

  lemma StartIsLinked(now: int)
    ensures Linked(Start(now)) && Fine(Start(now)) && Waiting(Start(now))
  {
  }

  // What a browser needs of a change to the table and the history.
  lemma OthersStep(w: World, after: World, browser: Browser)
    requires BrowserOk(w, browser) && w.table.nextJti <= after.table.nextJti && w.table.nextId <= after.table.nextId
    requires w.gone <= after.gone && w.rotated <= after.rotated
    requires forall t :: t in Tokens(browser) && Stored(w.table, t) ==> Kept(after, t)
    requires forall id: nat, t :: t in Tokens(browser) && Holds(w.table, id, t) ==>
               Holds(after.table, id, t) || (t in after.gone && id < after.table.nextId)
    ensures BrowserOk(after, browser)
  {
  }

  lemma EndingOk(w: World, ids: set<nat>)
    requires Linked(w)
    ensures Linked(Ending(w, ids))
    ensures forall t :: Stored(Ending(w, ids).table, t) ==> Stored(w.table, t)
  {
    var after := Ending(w, ids);
    WithoutOk(w.table, ids);
    forall id: nat, t | Holds(w.table, id, t)
      ensures Holds(after.table, id, t) || (t in after.gone && id < after.table.nextId)
    {
      assert RowOk(w.table, id);
    }
    forall t | Stored(w.table, t) ensures Kept(after, t) {
      var id :| id in w.table.sessions && Holds(w.table, id, t);
      assert Holds(after.table, id, t) || t in after.gone;
    }
    EndedAreNotStored(w, ids);
    forall b | 0 <= b < |w.browsers| ensures BrowserOk(after, w.browsers[b]) {
      OthersStep(w, after, w.browsers[b]);
    }
  }

  lemma EndedAreNotStored(w: World, ids: set<nat>)
    requires HistoryOk(w)
    ensures HistoryOk(Ending(w, ids))
  {
    var after := Ending(w, ids);
    WithoutOk(w.table, ids);
    forall t | t in TokensOf(w.table, ids) ensures t.jti < w.table.nextJti && !Stored(after.table, t) {
      var id :| id in ids && id in w.table.sessions && w.table.sessions[id].tokenHash.token == t;
      assert RowOk(w.table, id);
      forall k | k in after.table.sessions ensures !Holds(after.table, k, t) {
        assert k != id;
      }
    }
  }

  // One browser's own move, the tables staying as they are.
  lemma MovedOk(w: World, b: nat, browser: Browser)
    requires Linked(w) && b < |w.browsers| && BrowserOk(w, browser) && Tokens(browser) <= Tokens(w.browsers[b])
    ensures Linked(Put(w, b, browser))
  {
  }

  lemma SignInLinked(w: World, l: Label)
    requires Linked(w) && l.SignIn? && Enabled(w, l)
    ensures Linked(Step(w, l))
  {
    var w' := Step(w, l);
    var token := Sign(w.table, l.userId, w.now);
    IssueOk(w.table, l.userId, l.userAgent, w.now);
    forall id, t | Holds(w.table, id, t) ensures Holds(w'.table, id, t) {
      assert RowOk(w.table, id);
    }
    forall t: Token | t.jti < w.table.nextJti && Stored(w'.table, t) ensures Stored(w.table, t) {
      var id :| id in w'.table.sessions && Holds(w'.table, id, t);
      assert Holds(w.table, id, t);
    }
    forall b | 0 <= b < |w.browsers| ensures BrowserOk(w', w.browsers[b]) {
      OthersStep(w, w', w.browsers[b]);
    }
  }

  lemma LookupLinked(w: World, b: nat)
    requires Linked(w) && Enabled(w, Lookup(b))
    ensures Linked(Step(w, Lookup(b)))
  {
    var t := w.browsers[b].flight.t;
    assert BrowserOk(w, w.browsers[b]);
    var row := FindRow(w.table, w.table.nextId, t);
    MovedOk(w, b, w.browsers[b].(flight := Refused));
    if Verifies(t, w.now) && row.None? {
      EndingOk(Fly(w, b, Refused), OfUser(w.table, t.userId));
    } else if Verifies(t, w.now) {
      LiveRowNotExpired(w.table, row.value, t, w.now);
      MovedOk(w, b, w.browsers[b].(flight := Found(row.value, t)));
    }
  }

  lemma RotatingHistory(w: World, id: nat, t: Token)
    requires HistoryOk(w) && t.jti < w.table.nextJti
    ensures var after, answer := Rotating(w, id, t), Sign(w.table, t.userId, w.now);
            && HistoryOk(after) && Kept(after, answer) && answer.jti == w.table.nextJti < after.table.nextJti
            && w.table.nextId == after.table.nextId
            && (forall s :: s != t && Stored(w.table, s) ==> Stored(after.table, s))
            && (forall k, s :: s != t && Holds(w.table, k, s) ==> Holds(after.table, k, s))
            && (Holds(w.table, id, t) ==> t in after.rotated)
            && (!Holds(w.table, id, t) ==> after.table.sessions == w.table.sessions)
  {
    RotateOk(w.table, id, t, w.now);
    var after, answer := Rotating(w, id, t), Sign(w.table, t.userId, w.now);
    if Holds(w.table, id, t) {
      assert RowOk(w.table, id) && Stored(w.table, t);
    }
    forall s | Stored(after.table, s) && s != answer ensures Stored(w.table, s) {
      var k :| k in after.table.sessions && Holds(after.table, k, s);
      assert Holds(w.table, k, s);
    }
    forall k | k in w.table.sessions ensures !Holds(w.table, k, answer) {
      assert RowOk(w.table, k);
    }
  }

  lemma WriteLinked(w: World, b: nat)
    requires Linked(w) && Enabled(w, Write(b))
    ensures Linked(Step(w, Write(b)))
  {
    hide HistoryOk, Kept, Stored, Rotating, Holds;
    var browser := w.browsers[b];
    var id, t := browser.flight.id, browser.flight.t;
    var w' := Step(w, Write(b));
    assert BrowserOk(w, browser);
    assert t in Tokens(browser);
    OwnWrite(w, b);
    forall a | 0 <= a < |w.browsers| && a != b ensures BrowserOk(w', w.browsers[a]) {
      assert t !in Tokens(w.browsers[a]);
      OthersWrite(w, b, w.browsers[a]);
    }
    forall a | 0 <= a < |w.browsers| && a != b ensures Tokens(w.browsers[a]) !! Tokens(w'.browsers[b]) {
      assert BrowserOk(w, w.browsers[a]);
    }
  }

  lemma OwnWrite(w: World, b: nat)
    requires HistoryOk(w) && Enabled(w, Write(b)) && BrowserOk(w, w.browsers[b])
    ensures HistoryOk(Step(w, Write(b))) && BrowserOk(Step(w, Write(b)), Step(w, Write(b)).browsers[b])
    ensures Sign(w.table, w.browsers[b].flight.t.userId, w.now).jti == w.table.nextJti
    ensures Step(w, Write(b)).browsers == w.browsers[b := Step(w, Write(b)).browsers[b]]
    ensures Tokens(Step(w, Write(b)).browsers[b]) <= Tokens(w.browsers[b])
              + {Sign(w.table, w.browsers[b].flight.t.userId, w.now)}
  {
    var id, t := w.browsers[b].flight.id, w.browsers[b].flight.t;
    assert t in Tokens(w.browsers[b]);
    RotatingHistory(Fly(w, b, Answered(Sign(w.table, t.userId, w.now), t)), id, t);
  }

  lemma OthersWrite(w: World, b: nat, other: Browser)
    requires HistoryOk(w) && Enabled(w, Write(b)) && w.browsers[b].flight.t.jti < w.table.nextJti
    requires BrowserOk(w, other) && w.browsers[b].flight.t !in Tokens(other)
    ensures BrowserOk(Step(w, Write(b)), other)
  {
    var id, t := w.browsers[b].flight.id, w.browsers[b].flight.t;
    RotatingHistory(Fly(w, b, Answered(Sign(w.table, t.userId, w.now), t)), id, t);
    OthersStep(w, Step(w, Write(b)), other);
  }

  lemma StepLinked(w: World, l: Label)
    requires Linked(w) && Enabled(w, l)
    ensures Linked(Step(w, l))
  {
    hide HistoryOk, Ending, Rotating, Kept;
    match l {
      case Tick(to) => TickLinked(w, to);
      case Open => OpenLinked(w);
      case SignIn(b, userId, userAgent) => SignInLinked(w, l);
      case Lookup(b) => LookupLinked(w, b);
      case Write(b) => WriteLinked(w, b);
      case EndRows(ids) => EndingOk(w, ids);
      case Housekeeping(userId) => EndingOk(w, ExpiredOf(w.table, userId, w.now));
      case Delete(b) =>
        assert BrowserOk(w, w.browsers[b]);
        MovedOk(w, b, w.browsers[b].(exit := Ended));
        EndingOk(Put(w, b, w.browsers[b].(exit := Ended)), RowsWith(w, w.browsers[b].exit.t));
      case _ => OwnMove(w, l);
    }
  }

  lemma OwnMove(w: World, l: Label)
    requires Linked(w) && Enabled(w, l) && (l.StartRefresh? || l.Settle? || l.Post? || l.Clear?)
    ensures Linked(Step(w, l))
  {
    assert BrowserOk(w, w.browsers[l.b]);
    MovedOk(w, l.b, Step(w, l).browsers[l.b]);
  }

  lemma TickLinked(w: World, to: int)
    requires Linked(w)
    ensures Linked(w.(now := to))
  {
  }

  lemma OpenLinked(w: World)
    requires Linked(w)
    ensures Linked(Step(w, Open))
  {
  }

  // ---- when a refresh is taken for a replay ----

  // In every reachable state: a lookup ends the whole account exactly if its
  // token is live and its row has been deleted, or it never had one.
  lemma RevokesExactlyWhen(w: World, b: nat)
    requires Linked(w) && Enabled(w, Lookup(b))
    ensures var t, after := w.browsers[b].flight.t, Step(w, Lookup(b));
            if Verifies(t, w.now) && t in w.gone
            then after.revocations == w.revocations + 1 && OfUser(after.table, t.userId) == {}
            else after.revocations == w.revocations && after.table == w.table && after.gone == w.gone
  {
    var t := w.browsers[b].flight.t;
    assert BrowserOk(w, w.browsers[b]);
    if Verifies(t, w.now) {
      var row := FindRow(w.table, w.table.nextId, t);
      if row.Some? {
        assert Stored(w.table, t);
        LiveRowNotExpired(w.table, row.value, t, w.now);
      } else {
        forall id | id in w.table.sessions ensures !Holds(w.table, id, t) {
          assert RowOk(w.table, id);
        }
      }
    }
  }

  // A write answers with a token no row holds exactly if the row it found has
  // been deleted in the meantime.
  lemma PoisonedExactlyWhen(w: World, b: nat)
    requires Linked(w) && Enabled(w, Write(b))
    ensures var t, after := w.browsers[b].flight.t, Step(w, Write(b));
            var answer := after.browsers[b].flight.answer;
            if t in w.gone then answer in after.gone && after.table.sessions == w.table.sessions
            else Stored(after.table, answer) && after.gone == w.gone && after.rotated == w.rotated + {t}
  {
    var id, t := w.browsers[b].flight.id, w.browsers[b].flight.t;
    assert BrowserOk(w, w.browsers[b]);
    assert t in Tokens(w.browsers[b]);
    RotateOk(w.table, id, t, w.now);
    if Holds(w.table, id, t) {
      assert RowOk(w.table, id) && Stored(w.table, t);
    }
  }

  // A sign-out deletes nothing exactly if the session it was posted for has
  // ended already, or has been given a new token since.
  lemma SignOutMissesExactlyWhen(w: World, b: nat)
    requires Linked(w) && Enabled(w, Delete(b)) && w.browsers[b].exit.t.Some?
    ensures var t, after := w.browsers[b].exit.t.value, Step(w, Delete(b));
            !Stored(after.table, t) && (after.table == w.table <==> t in w.gone || t in w.rotated)
  {
    var t := w.browsers[b].exit.t.value;
    assert BrowserOk(w, w.browsers[b]);
    var ids := WithHash(w.table, t);
    if Stored(w.table, t) {
      var id :| id in w.table.sessions && Holds(w.table, id, t);
      assert id in ids && id !in Without(w.table, ids).sessions;
    } else {
      assert ids == {};
      assert Without(w.table, ids) == w.table;
    }
  }

  // ---- what a browser has in play ----

  predicate FlightSpared(gone: set<Token>, now: int, flight: Flight) {
    match flight
    case Sent(t) => !(Verifies(t, now) && t in gone)
    case Found(_, t) => t !in gone
    case Answered(answer, _) => !(Verifies(answer, now) && answer in gone)
    case _ => true
  }

  // Nothing a browser has in play is among these tokens. A cookie about to be
  // cleared does not count.
  predicate Spared(gone: set<Token>, now: int, browser: Browser) {
    && FlightSpared(gone, now, browser.flight)
    && (browser.exit == Staying && browser.cookie.Some? ==>
         !(Verifies(browser.cookie.value, now) && browser.cookie.value in gone))
  }

  predicate AllSpared(gone: set<Token>, w: World) {
    forall b :: 0 <= b < |w.browsers| ==> Spared(gone, w.now, w.browsers[b])
  }

  predicate Fine(w: World) {
    AllSpared(w.gone, w)
  }

  // The steps that put an end to that: signing out with one's own refresh in
  // flight, starting one before the cookie is cleared, and having a session
  // that is in use ended from elsewhere.
  predicate Loses(w: World, l: Label)
    requires Enabled(w, l)
  {
    match l
    case Delete(b) =>
      var exit := w.browsers[b].exit;
      exit.t.Some? && RowsWith(w, exit.t) != {} && !FlightSpared({exit.t.value}, w.now, w.browsers[b].flight)
    case StartRefresh(b) =>
      w.browsers[b].cookie.Some? && Verifies(w.browsers[b].cookie.value, w.now) && w.browsers[b].cookie.value in w.gone
    case EndRows(ids) => !AllSpared(TokensOf(w.table, ids), w)
    case Housekeeping(userId) => !AllSpared(TokensOf(w.table, ExpiredOf(w.table, userId, w.now)), w)
    case _ => false
  }

  lemma EndingSpares(w: World, ids: set<nat>)
    ensures Fine(Ending(w, ids)) <==> Fine(w) && AllSpared(TokensOf(w.table, ids), w)
  {
    var after := Ending(w, ids);
    forall b | 0 <= b < |w.browsers|
      ensures Spared(after.gone, w.now, w.browsers[b])
              <==> Spared(w.gone, w.now, w.browsers[b]) && Spared(TokensOf(w.table, ids), w.now, w.browsers[b])
    {
    }
  }

  lemma DeleteSpares(w: World, b: nat)
    requires Linked(w) && Fine(w) && Enabled(w, Delete(b))
    ensures Fine(Step(w, Delete(b))) <==> !Loses(w, Delete(b))
  {
    var exit := w.browsers[b].exit;
    var left := Put(w, b, w.browsers[b].(exit := Ended));
    var ids := RowsWith(w, exit.t);
    assert Fine(left);
    EndingSpares(left, ids);
    var tokens := TokensOf(w.table, ids);
    if ids == {} {
      assert tokens == {};
    } else {
      assert tokens == {exit.t.value} by {
        var id :| id in ids;
        assert w.table.sessions[id].tokenHash.token == exit.t.value;
      }
      forall a | 0 <= a < |w.browsers| && a != b ensures Spared(tokens, w.now, w.browsers[a]) {
        assert exit.t.value in Tokens(w.browsers[b]) && exit.t.value !in Tokens(w.browsers[a]);
      }
      assert left.browsers[b].exit == Ended;
    }
  }

  // From a state where nothing in play is lost, one of those steps, and no
  // other, leads to a refresh that is taken for a replay or poisoned.
  lemma FineExactlyWhen(w: World, l: Label)
    requires Linked(w) && Fine(w) && Enabled(w, l)
    ensures Fine(Step(w, l)) <==> !Loses(w, l)
    ensures Step(w, l).revocations == w.revocations
  {
    hide Linked, AllSpared, Ending, Rotating, TokensOf;
    match l {
      case Lookup(b) => LookupSpares(w, b);
      case Write(b) => WriteSpares(w, b);
      case Delete(b) => DeleteSpares(w, b);
      case EndRows(ids) => EndingSpares(w, ids);
      case Housekeeping(userId) => EndingSpares(w, ExpiredOf(w.table, userId, w.now));
      case SignIn(b, _, _) => SignInSpares(w, l);
      case StartRefresh(b) => StartSpares(w, b);
      case _ => OwnMoveSpares(w, l);
    }
    if !l.Lookup? {
      EndingCounts(w, l);
    }
  }

  lemma LookupSpares(w: World, b: nat)
    requires Linked(w) && Fine(w) && Enabled(w, Lookup(b))
    ensures Fine(Step(w, Lookup(b))) && Step(w, Lookup(b)).revocations == w.revocations
  {
    RevokesExactlyWhen(w, b);
    assert Spared(w.gone, w.now, w.browsers[b]);
    var after := Step(w, Lookup(b));
    assert after.gone == w.gone && after.now == w.now;
    forall a | 0 <= a < |after.browsers| ensures Spared(w.gone, w.now, after.browsers[a]) {
      assert Spared(w.gone, w.now, w.browsers[a]);
    }
  }

  lemma WriteSpares(w: World, b: nat)
    requires Linked(w) && Fine(w) && Enabled(w, Write(b))
    ensures Fine(Step(w, Write(b)))
  {
    PoisonedExactlyWhen(w, b);
    var after := Step(w, Write(b));
    assert Spared(w.gone, w.now, w.browsers[b]);
    StepLinked(w, Write(b));
    assert after.browsers[b].flight.answer !in after.gone;
    forall a | 0 <= a < |after.browsers| ensures Spared(w.gone, w.now, after.browsers[a]) {
      assert Spared(w.gone, w.now, w.browsers[a]);
    }
  }

  lemma SignInSpares(w: World, l: Label)
    requires Linked(w) && Fine(w) && l.SignIn? && Enabled(w, l)
    ensures Fine(Step(w, l))
  {
    var after := Step(w, l);
    assert Sign(w.table, l.userId, w.now) !in w.gone;
    forall a | 0 <= a < |after.browsers| ensures Spared(w.gone, w.now, after.browsers[a]) {
      assert Spared(w.gone, w.now, w.browsers[a]);
    }
  }

  lemma StartSpares(w: World, b: nat)
    requires Fine(w) && Enabled(w, StartRefresh(b))
    ensures Fine(Step(w, StartRefresh(b))) <==> !Loses(w, StartRefresh(b))
  {
    var after := Step(w, StartRefresh(b));
    forall a | 0 <= a < |after.browsers| ensures Spared(w.gone, w.now, w.browsers[a]) {
    }
    assert after.browsers[b] == w.browsers[b].(flight := after.browsers[b].flight);
    assert Spared(w.gone, w.now, after.browsers[b]) <==> !Loses(w, StartRefresh(b));
  }

  lemma OwnMoveSpares(w: World, l: Label)
    requires Fine(w) && Enabled(w, l) && (l.Tick? || l.Open? || l.Settle? || l.Post? || l.Clear?)
    ensures Fine(Step(w, l))
  {
    var after := Step(w, l);
    forall a | 0 <= a < |after.browsers| ensures Spared(w.gone, after.now, after.browsers[a]) {
      if a < |w.browsers| {
        assert Spared(w.gone, w.now, w.browsers[a]);
      }
    }
  }

  lemma EndingCounts(w: World, l: Label)
    requires Enabled(w, l) && !l.Lookup?
    ensures Step(w, l).revocations == w.revocations
  {
  }

  ghost predicate NothingLost(w: World, ls: seq<Label>)
    requires CanRun(w, ls)
    decreases |ls|
  {
    ls == [] || (!Loses(w, ls[0]) && NothingLost(Step(w, ls[0]), ls[1..]))
  }

  ghost predicate FineThroughout(w: World, ls: seq<Label>)
    requires CanRun(w, ls)
    decreases |ls|
  {
    Fine(w) && (ls != [] ==> FineThroughout(Step(w, ls[0]), ls[1..]))
  }

  // So for whole runs: nothing in play is ever lost if and only if no such
  // step is taken, and then no account is ended.
  lemma {:induction false} FineThroughoutExactlyWhen(w: World, ls: seq<Label>)
    requires Linked(w) && Fine(w) && CanRun(w, ls)
    ensures FineThroughout(w, ls) <==> NothingLost(w, ls)
    ensures NothingLost(w, ls) ==> Linked(After(w, ls)) && After(w, ls).revocations == w.revocations
    decreases |ls|
  {
    hide Linked, Fine, Loses, Step, Enabled;
    if ls != [] {
      StepLinked(w, ls[0]);
      FineExactlyWhen(w, ls[0]);
      if !Loses(w, ls[0]) {
        FineThroughoutExactlyWhen(Step(w, ls[0]), ls[1..]);
      } else {
        NotFineLater(Step(w, ls[0]), ls[1..]);
      }
    }
  }

  lemma NotFineLater(w: World, ls: seq<Label>)
    requires CanRun(w, ls) && !Fine(w)
    ensures !FineThroughout(w, ls)
  {
  }

  // ---- where sign-out waits ----

  // Signing out waits for a refresh in flight and holds the next one off; no
  // session in use is ended from elsewhere, or outlived between a lookup and
  // its write.
  predicate WaitsItsTurn(w: World, l: Label)
    requires Enabled(w, l)
  {
    match l
    case Post(b) => w.browsers[b].flight == Grounded
    case StartRefresh(b) => w.browsers[b].exit == Staying
    case EndRows(_) => !Loses(w, l)
    case Housekeeping(_) => !Loses(w, l)
    case _ => true
  }

  predicate Waiting(w: World) {
    forall b :: 0 <= b < |w.browsers| && w.browsers[b].exit != Staying ==> w.browsers[b].flight == Grounded
  }

  lemma WaitingLosesNothing(w: World, l: Label)
    requires Fine(w) && Waiting(w) && Enabled(w, l) && WaitsItsTurn(w, l)
    ensures !Loses(w, l) && Waiting(Step(w, l))
  {
    if l.StartRefresh? {
      assert Spared(w.gone, w.now, w.browsers[l.b]);
    }
  }

  ghost predicate AllWait(w: World, ls: seq<Label>)
    requires CanRun(w, ls)
    decreases |ls|
  {
    ls == [] || (WaitsItsTurn(w, ls[0]) && AllWait(Step(w, ls[0]), ls[1..]))
  }

  // Then, however many browsers sign in, refresh and sign out, and however
  // their requests interleave: no refresh is mistaken for a replay, and a
  // browser with nothing in flight has a cookie some row holds, or an expired
  // one.
  lemma {:induction false} NeverMistakenForReplay(w: World, ls: seq<Label>)
    requires Linked(w) && Fine(w) && Waiting(w) && CanRun(w, ls) && AllWait(w, ls)
    ensures var after := After(w, ls);
            && Linked(after) && Fine(after) && Waiting(after) && after.revocations == w.revocations
            && forall b :: 0 <= b < |after.browsers| && AtRest(after.browsers[b]) ==>
                 CookieStands(after, after.browsers[b])
    decreases |ls|
  {
    hide Fine, Waiting, Loses, Step, Enabled, WaitsItsTurn;
    if ls != [] {
      StepLinked(w, ls[0]);
      WaitingLosesNothing(w, ls[0]);
      FineExactlyWhen(w, ls[0]);
      NeverMistakenForReplay(Step(w, ls[0]), ls[1..]);
    } else {
      RestingCookies(w);
    }
  }

  predicate AtRest(browser: Browser) {
    browser.flight == Grounded && browser.exit == Staying
  }

  predicate CookieStands(w: World, browser: Browser) {
    browser.cookie.Some? && Verifies(browser.cookie.value, w.now) ==> Stored(w.table, browser.cookie.value)
  }

  lemma RestingCookies(w: World)
    requires Linked(w) && Fine(w)
    ensures forall b :: 0 <= b < |w.browsers| && AtRest(w.browsers[b]) ==> CookieStands(w, w.browsers[b])
  {
    forall b | 0 <= b < |w.browsers| && AtRest(w.browsers[b]) ensures CookieStands(w, w.browsers[b]) {
      assert BrowserOk(w, w.browsers[b]) && Spared(w.gone, w.now, w.browsers[b]);
    }
  }

  // ---- where it does not ----

  // A browser signed in, with nothing in flight and its session in a row.
  ghost predicate InUse(w: World, b: nat, t: Token) {
    && Linked(w) && b < |w.browsers| && AtRest(w.browsers[b]) && w.browsers[b].cookie == Some(t)
    && Verifies(t, w.now) && Stored(w.table, t)
  }

  lemma OneFirst(w: World, l: Label, more: seq<Label>)
    requires Enabled(w, l) && CanRun(Step(w, l), more)
    ensures CanRun(w, [l] + more) && After(w, [l] + more) == After(Step(w, l), more)
  {
    assert ([l] + more)[1..] == more;
  }

  lemma NoMore(w: World)
    ensures CanRun(w, []) && After(w, []) == w
  {
  }

  // Clicking "sign out" while a refresh is on its way.
  function SignOutMeanwhile(b: nat): seq<Label> {
    [StartRefresh(b)] + ([Post(b)] + ([Delete(b)] + ([Lookup(b)] + [])))
  }

  // Signing out of one device ends every session of the account: the refresh
  // in flight arrives with a token no row holds.
  lemma SigningOutEndsAll(w: World, b: nat, t: Token)
    requires InUse(w, b, t)
    ensures CanRun(w, SignOutMeanwhile(b))
    ensures var after := After(w, SignOutMeanwhile(b));
            after.revocations == w.revocations + 1 && OfUser(after.table, t.userId) == {}
  {
    var browser := w.browsers[b];
    var w1 := Put(w, b, browser.(flight := Sent(t)));
    var w2 := Put(w, b, browser.(flight := Sent(t), exit := Posted(Some(t))));
    var w3 := Ending(Put(w, b, browser.(flight := Sent(t), exit := Ended)), WithHash(w.table, t));
    assert Step(w, StartRefresh(b)) == w1 && Step(w1, Post(b)) == w2;
    StepLinked(w, StartRefresh(b));
    StepLinked(w1, Post(b));
    assert Step(w2, Delete(b)) == w3;
    StepLinked(w2, Delete(b));
    DeletedIsGone(w, t);
    RevokesExactlyWhen(w3, b);
    hide Step, Linked, Ending;
    NoMore(Step(w3, Lookup(b)));
    OneFirst(w3, Lookup(b), []);
    OneFirst(w2, Delete(b), [Lookup(b)] + []);
    OneFirst(w1, Post(b), [Delete(b)] + ([Lookup(b)] + []));
    OneFirst(w, StartRefresh(b), [Post(b)] + ([Delete(b)] + ([Lookup(b)] + [])));
  }

  lemma DeletedIsGone(w: World, t: Token)
    requires Stored(w.table, t)
    ensures t in TokensOf(w.table, WithHash(w.table, t))
  {
    var id :| id in w.table.sessions && Holds(w.table, id, t);
    assert id in WithHash(w.table, t);
  }

  // A session ended from another device, and then used once more.
  function EndedThenUsed(ids: set<nat>, b: nat): seq<Label> {
    [EndRows(ids)] + ([StartRefresh(b)] + ([Lookup(b)] + []))
  }

  // Ending one device's session ends all of them, the one it was done from
  // included, as soon as that device refreshes.
  lemma EndedDeviceEndsAll(w: World, b: nat, t: Token)
    requires InUse(w, b, t)
    ensures CanRun(w, EndedThenUsed(WithHash(w.table, t), b))
    ensures var after := After(w, EndedThenUsed(WithHash(w.table, t), b));
            after.revocations == w.revocations + 1 && OfUser(after.table, t.userId) == {}
  {
    var ids := WithHash(w.table, t);
    var w1 := Ending(w, ids);
    var w2 := Fly(w1, b, Sent(t));
    assert Step(w, EndRows(ids)) == w1 && Step(w1, StartRefresh(b)) == w2;
    StepLinked(w, EndRows(ids));
    StepLinked(w1, StartRefresh(b));
    DeletedIsGone(w, t);
    RevokesExactlyWhen(w2, b);
    hide Step, Linked, Ending;
    NoMore(Step(w2, Lookup(b)));
    OneFirst(w2, Lookup(b), []);
    OneFirst(w1, StartRefresh(b), [Lookup(b)] + []);
    OneFirst(w, EndRows(ids), [StartRefresh(b)] + ([Lookup(b)] + []));
  }

  // Signing out while a refresh is being answered.
  function SignOutMissed(b: nat): seq<Label> {
    [StartRefresh(b)] + ([Lookup(b)] + ([Post(b)] + ([Write(b)] + AfterAnswer(b))))
  }

  function AfterAnswer(b: nat): seq<Label> {
    [Delete(b)] + ([Clear(b)] + ([Settle(b)] + []))
  }

  // The sign-out finds no row to delete, and the browser is signed in again
  // when the refresh's answer comes.
  lemma SigningOutMisses(w: World, b: nat, t: Token)
    requires InUse(w, b, t)
    ensures CanRun(w, SignOutMissed(b))
    ensures var after := After(w, SignOutMissed(b));
            after.table.sessions.Keys == w.table.sessions.Keys && StillSignedIn(after, b)
  {
    hide Step, Linked, Holds, FindRow, CanRun, After, InUse;
    AnsweredMeanwhile(w, b, t);
    MissedRest(BeforeDelete(w, b), b, t);
    var more := AfterAnswer(b);
    OneFirst(Step(Step(Step(w, StartRefresh(b)), Lookup(b)), Post(b)), Write(b), more);
    OneFirst(Step(Step(w, StartRefresh(b)), Lookup(b)), Post(b), [Write(b)] + more);
    OneFirst(Step(w, StartRefresh(b)), Lookup(b), [Post(b)] + ([Write(b)] + more));
    OneFirst(w, StartRefresh(b), [Lookup(b)] + ([Post(b)] + ([Write(b)] + more)));
  }

  predicate StillSignedIn(w: World, b: nat) {
    b < |w.browsers| && AtRest(w.browsers[b]) && w.browsers[b].cookie.Some?
    && Stored(w.table, w.browsers[b].cookie.value)
  }

  ghost predicate CanReach(w: World, b: nat) {
    && Enabled(w, StartRefresh(b)) && Enabled(Step(w, StartRefresh(b)), Lookup(b))
    && Enabled(Step(Step(w, StartRefresh(b)), Lookup(b)), Post(b))
    && Enabled(Step(Step(Step(w, StartRefresh(b)), Lookup(b)), Post(b)), Write(b))
  }

  ghost function BeforeDelete(w: World, b: nat): World
    requires CanReach(w, b)
  {
    Step(Step(Step(Step(w, StartRefresh(b)), Lookup(b)), Post(b)), Write(b))
  }

  lemma AnsweredMeanwhile(w: World, b: nat, t: Token)
    requires InUse(w, b, t)
    ensures CanReach(w, b) && Linked(BeforeDelete(w, b)) && b < |BeforeDelete(w, b).browsers|
    ensures var after := BeforeDelete(w, b);
            && after.table.sessions.Keys == w.table.sessions.Keys && t in after.rotated
            && after.browsers[b].flight.Answered? && after.browsers[b].exit == Posted(Some(t))
            && Stored(after.table, after.browsers[b].flight.answer)
  {
    var id :| id in w.table.sessions && Holds(w.table, id, t);
    FoundInUse(w, b, id, t);
    ThreeMoves(w, b, id, t);
    hide Step, Enabled, Linked, Stored;
    var w1 := Step(w, StartRefresh(b));
    var w2 := Step(w1, Lookup(b));
    var w3 := Step(w2, Post(b));
    StepLinked(w, StartRefresh(b));
    StepLinked(w1, Lookup(b));
    StepLinked(w2, Post(b));
    StepLinked(w3, Write(b));
    PoisonedExactlyWhen(w3, b);
    WriteFields(w3, b);
  }

  // Signing out between the lookup and the write: the answer is a token no
  // row holds, and the browser will use it.
  lemma SigningOutPoisons(w: World, b: nat, t: Token)
    requires InUse(w, b, t)
    ensures CanReach(w, b)
    ensures var w3 := Step(Step(Step(w, StartRefresh(b)), Lookup(b)), Post(b));
            && Enabled(w3, Delete(b)) && Enabled(Step(w3, Delete(b)), Write(b))
            && var after := Step(Step(w3, Delete(b)), Write(b));
               b < |after.browsers| && after.browsers[b].flight.Answered?
               && after.browsers[b].flight.answer in after.gone
  {
    var id :| id in w.table.sessions && Holds(w.table, id, t);
    FoundInUse(w, b, id, t);
    ThreeMoves(w, b, id, t);
    var w1 := Step(w, StartRefresh(b));
    var w2 := Step(w1, Lookup(b));
    var w3 := Put(w, b, w.browsers[b].(flight := Found(id, t), exit := Posted(Some(t))));
    StepLinked(w, StartRefresh(b));
    StepLinked(w1, Lookup(b));
    StepLinked(w2, Post(b));
    StepLinked(w3, Delete(b));
    DeletedIsGone(w, t);
    DeleteFields(w3, b, t);
    hide Step, Linked, Stored, TokensOf;
    PoisonedExactlyWhen(Step(w3, Delete(b)), b);
    WriteFields(Step(w3, Delete(b)), b);
  }

  lemma DeleteFields(w: World, b: nat, t: Token)
    requires Enabled(w, Delete(b)) && w.browsers[b].exit == Posted(Some(t))
             && t in TokensOf(w.table, WithHash(w.table, t))
    ensures var after := Step(w, Delete(b));
            t in after.gone && |after.browsers| == |w.browsers| && after.browsers[b].flight == w.browsers[b].flight
  {
  }

  lemma ThreeMoves(w: World, b: nat, id: nat, t: Token)
    requires InUse(w, b, t) && FindRow(w.table, w.table.nextId, t) == Some(id) && w.now < w.table.sessions[id].expiresAt
    ensures CanReach(w, b)
    ensures Step(Step(Step(w, StartRefresh(b)), Lookup(b)), Post(b))
            == Put(w, b, w.browsers[b].(flight := Found(id, t), exit := Posted(Some(t))))
  {
    hide Linked, FindRow, Stored;
    assert Step(w, StartRefresh(b)) == Fly(w, b, Sent(t));
    assert Step(Fly(w, b, Sent(t)), Lookup(b)) == Fly(w, b, Found(id, t));
  }

  lemma WriteFields(w: World, b: nat)
    requires Enabled(w, Write(b))
    ensures var after := Step(w, Write(b));
            && after.table.sessions.Keys == w.table.sessions.Keys && |after.browsers| == |w.browsers|
            && after.browsers[b].flight.Answered? && after.browsers[b].exit == w.browsers[b].exit
  {
  }

  lemma FoundInUse(w: World, b: nat, id: nat, t: Token)
    requires InUse(w, b, t) && id in w.table.sessions && Holds(w.table, id, t)
    ensures FindRow(w.table, w.table.nextId, t) == Some(id) && w.now < w.table.sessions[id].expiresAt && t !in w.gone
  {
    assert RowOk(w.table, id);
    LiveRowNotExpired(w.table, id, t, w.now);
  }

  lemma MissedRest(w: World, b: nat, t: Token)
    requires Linked(w) && b < |w.browsers| && w.browsers[b].flight.Answered? && w.browsers[b].exit == Posted(Some(t))
    requires t in w.rotated
    ensures CanRun(w, AfterAnswer(b)) && After(w, AfterAnswer(b)).table == w.table
    ensures After(w, AfterAnswer(b)).browsers
            == w.browsers[b := Browser(Some(w.browsers[b].flight.answer), Grounded, Staying)]
  {
    SignOutMissesExactlyWhen(w, b);
    var w1, w2 := Step(w, Delete(b)), Step(Step(w, Delete(b)), Clear(b));
    var w3 := Step(w2, Settle(b));
    assert w3.browsers == w.browsers[b := Browser(Some(w.browsers[b].flight.answer), Grounded, Staying)];
    NoMore(w3);
    OneFirst(w2, Settle(b), []);
    OneFirst(w1, Clear(b), [Settle(b)] + []);
    OneFirst(w, Delete(b), [Clear(b)] + ([Settle(b)] + []));
  }
}
