/** Refresh sessions: a row per signed-in device, holding the hash of the one
    refresh token that device may use next. */
module Sessions {
  import opened Wrappers

  const REFRESH_TTL_MS := 30 * 24 * 60 * 60 * 1000

  // A signed refresh token. `jti` is fresh for every token signed; `exp`
  // counts whole seconds, as a JWT's expiry does.
  datatype Token = Token(userId: int, jti: nat, exp: int)

  // SHA-256, taken to be collision-free.
  datatype Hash = Sha256(token: Token)

  datatype Session = Session(userId: int, tokenHash: Hash, expiresAt: int, userAgent: string)

  // refresh_sessions, and the supply of fresh ids.
  datatype Table = Table(sessions: map<nat, Session>, nextId: nat, nextJti: nat)

  function Sign(table: Table, userId: int, now: int): Token {
    Token(userId, table.nextJti, now / 1000 + REFRESH_TTL_MS / 1000)
  }

  // The signature is ours and the token has not expired.
  predicate Verifies(t: Token, now: int) {
    now / 1000 < t.exp
  }

  predicate Holds(table: Table, id: nat, t: Token) {
    id in table.sessions && table.sessions[id].tokenHash == Sha256(t)
  }

  predicate Stored(table: Table, t: Token) {
    exists id :: id in table.sessions && Holds(table, id, t)
  }

  // Every way into a session goes through here.
  function Issue(table: Table, userId: int, userAgent: string, now: int): Table {
    Table(table.sessions[table.nextId :=
      Session(userId, Sha256(Sign(table, userId, now)), now + REFRESH_TTL_MS, userAgent)],
          table.nextId + 1, table.nextJti + 1)
  }

  // The conditional update of a rotation: it lands only where the row still
  // holds the token that was presented. A new token is signed either way.
  function Rotate(table: Table, id: nat, t: Token, now: int): Table {
    if Holds(table, id, t) then
      table.(sessions := table.sessions[id := table.sessions[id].(
               tokenHash := Sha256(Sign(table, table.sessions[id].userId, now)), expiresAt := now + REFRESH_TTL_MS)],
             nextJti := table.nextJti + 1)
    else
      table.(nextJti := table.nextJti + 1)
  }

  function Without(table: Table, gone: set<nat>): Table {
    table.(sessions := table.sessions - gone)
  }

  function OfUser(table: Table, userId: int): set<nat> {
    set id | id in table.sessions && table.sessions[id].userId == userId
  }

  function WithHash(table: Table, t: Token): set<nat> {
    set id | id in table.sessions && Holds(table, id, t)
  }

  function ExpiredOf(table: Table, userId: int, now: int): set<nat> {
    set id | id in table.sessions && table.sessions[id].userId == userId && table.sessions[id].expiresAt < now
  }

  // changePassword keeps the device it was done on, if it can tell which.
  function OthersOf(table: Table, userId: int, keep: Option<Token>): set<nat> {
    set id | id in table.sessions && table.sessions[id].userId == userId
             && !(keep.Some? && table.sessions[id].tokenHash == Sha256(keep.value))
  }

  // ---- what the table always satisfies ----

  // The unique index on token_hash.
  ghost predicate HashesDistinct(table: Table) {
    forall a, b | a in table.sessions && b in table.sessions ::
      table.sessions[a].tokenHash == table.sessions[b].tokenHash ==> a == b
  }

  // A row outlives its token, belongs to the same account, and its token was
  // signed before whatever will be signed next.
  predicate RowOk(table: Table, id: nat)
    requires id in table.sessions
  {
    var t := table.sessions[id].tokenHash.token;
    id < table.nextId && t.jti < table.nextJti && t.userId == table.sessions[id].userId
    && t.exp * 1000 <= table.sessions[id].expiresAt
  }

  ghost predicate TableOk(table: Table) {
    HashesDistinct(table) && forall id :: id in table.sessions ==> RowOk(table, id)
  }

  lemma IssueOk(table: Table, userId: int, userAgent: string, now: int)
    requires TableOk(table)
    ensures TableOk(Issue(table, userId, userAgent, now))
    ensures Stored(Issue(table, userId, userAgent, now), Sign(table, userId, now))
    ensures forall t :: Stored(table, t) ==> Stored(Issue(table, userId, userAgent, now), t)
  {
    var after := Issue(table, userId, userAgent, now);
    assert Holds(after, table.nextId, Sign(table, userId, now));
    forall t | Stored(table, t) ensures Stored(after, t) {
      var id :| id in table.sessions && Holds(table, id, t);
      assert Holds(after, id, t);
    }
  }

  // Whether or not it lands, a rotation keeps the account's rows: same ids,
  // same owners, same devices. When it lands, the presented token is out and
  // the new one in; nothing else stored changes.
  lemma RotateOk(table: Table, id: nat, t: Token, now: int)
    requires TableOk(table)
    ensures var after := Rotate(table, id, t, now);
            && TableOk(after)
            && after.sessions.Keys == table.sessions.Keys
            && (forall k :: k in table.sessions ==>
                  after.sessions[k].userId == table.sessions[k].userId
                  && after.sessions[k].userAgent == table.sessions[k].userAgent)
    ensures var after := Rotate(table, id, t, now);
            if Holds(table, id, t) then
              && Stored(after, Sign(table, table.sessions[id].userId, now)) && !Stored(after, t)
              && forall other :: other != t && Stored(table, other) ==> Stored(after, other)
            else
              after.sessions == table.sessions
  {
  }

  lemma WithoutOk(table: Table, gone: set<nat>)
    requires TableOk(table)
    ensures TableOk(Without(table, gone))
    ensures forall t :: Stored(Without(table, gone), t) ==> Stored(table, t)
    ensures forall id, t :: Holds(table, id, t) && id !in gone ==> Stored(Without(table, gone), t)
  {
    var after := Without(table, gone);
    forall t | Stored(after, t) ensures Stored(table, t) {
      var id :| id in after.sessions && Holds(after, id, t);
      assert Holds(table, id, t);
    }
    forall id, t | Holds(table, id, t) && id !in gone ensures Stored(after, t) {
      assert Holds(after, id, t);
    }
  }

  lemma LiveRowNotExpired(table: Table, id: nat, t: Token, now: int)
    requires TableOk(table) && Holds(table, id, t) && Verifies(t, now)
    ensures now < table.sessions[id].expiresAt
  {
  }

  // The row holding a token, by the unique index on its hash.
  function FindRow(table: Table, n: nat, t: Token): (r: Option<nat>)
    ensures r.Some? ==> r.value < n && Holds(table, r.value, t)
    ensures r.None? ==> forall id: nat :: id < n ==> !Holds(table, id, t)
  {
    if n == 0 then None else if Holds(table, n - 1, t) then Some(n - 1) else FindRow(table, n - 1, t)
  }

  // What the server does with a token no row holds: someone is replaying it,
  // so every session on the account ends.
  function ReuseDetected(table: Table, t: Token): Table {
    Without(table, OfUser(table, t.userId))
  }
}

/** Sessions under any mix of devices, copied cookies and simultaneous calls. */
module SessionRuns {
  import opened Wrappers
  import opened Sessions

  // A refresh call between its lookup and its write.
  datatype Call = Presented(t: Token) | Found(id: nat, t: Token) | Unknown(t: Token) | Expired(id: nat) | Done

  // The last four are history: every token ever signed; those whose hash a
  // rotation replaced, in order; those a rotation signed but did not store;
  // and those whose row was deleted.
  datatype World = World(table: Table, now: int, calls: seq<Call>,
                         issued: set<Token>, spent: seq<Token>, lost: set<Token>, ended: set<Token>)

  datatype Label =
    | Tick(to: int)
    | SignIn(userId: int, userAgent: string)
    | Housekeeping(userId: int)
    | Present(t: Token)
    | Lookup(c: nat)
    | Write(c: nat)
    | EndDeactivated(c: nat)
    | Logout(t: Token)
    | EndSession(userId: int, id: nat)
    | EndAll(userId: int)
    | ChangePassword(userId: int, keep: Option<Token>)

  predicate Enabled(w: World, l: Label) {
    match l
    case Tick(to) => w.now <= to
    case Present(t) => t in w.issued && Verifies(t, w.now)
    case Lookup(c) => c < |w.calls| && w.calls[c].Presented?
    case Write(c) => c < |w.calls| && (w.calls[c].Found? || w.calls[c].Unknown? || w.calls[c].Expired?)
    case EndDeactivated(c) => c < |w.calls| && w.calls[c].Found?
    case _ => true
  }

  function LookedUp(w: World, t: Token): Call {
    match FindRow(w.table, w.table.nextId, t)
    case None => Unknown(t)
    case Some(id) => if w.table.sessions[id].expiresAt <= w.now then Expired(id) else Found(id, t)
  }

  function Ending(w: World, gone: set<nat>): World {
    w.(table := Without(w.table, gone),
       ended := w.ended + set id | id in gone && id in w.table.sessions :: w.table.sessions[id].tokenHash.token)
  }

  function Finish(w: World, c: nat): World
    requires c < |w.calls|
  {
    w.(calls := w.calls[c := Done])
  }

  function Rotating(w: World, id: nat, t: Token): World {
    var landed, signed := Holds(w.table, id, t), Sign(w.table, t.userId, w.now);
    w.(table := Rotate(w.table, id, t, w.now), issued := w.issued + {signed},
       spent := if landed then w.spent + [t] else w.spent, lost := if landed then w.lost else w.lost + {signed})
  }

  function Step(w: World, l: Label): World
    requires Enabled(w, l)
  {
    match l
    case Tick(to) => w.(now := to)
    case SignIn(userId, userAgent) =>
      w.(table := Issue(w.table, userId, userAgent, w.now), issued := w.issued + {Sign(w.table, userId, w.now)})
    case Housekeeping(userId) => Ending(w, ExpiredOf(w.table, userId, w.now))
    case Present(t) => w.(calls := w.calls + [Presented(t)])
    case Lookup(c) => w.(calls := w.calls[c := LookedUp(w, w.calls[c].t)])
    case Write(c) =>
      (match w.calls[c]
       case Found(id, t) => Rotating(Finish(w, c), id, t)
       case Unknown(t) => Ending(Finish(w, c), OfUser(w.table, t.userId))
       case Expired(id) => Ending(Finish(w, c), {id})
       case _ => w)
    case EndDeactivated(c) => Ending(Finish(w, c), OfUser(w.table, w.calls[c].t.userId))
    case Logout(t) => Ending(w, WithHash(w.table, t))
    case EndSession(userId, id) => Ending(w, if id in OfUser(w.table, userId) then {id} else {})
    case EndAll(userId) => Ending(w, OfUser(w.table, userId))
    case ChangePassword(userId, keep) => Ending(w, OthersOf(w.table, userId, keep))
  }

  predicate CanRun(w: World, ls: seq<Label>)
    decreases |ls|
  {
    ls == [] || (Enabled(w, ls[0]) && CanRun(Step(w, ls[0]), ls[1..]))
  }

  function After(w: World, ls: seq<Label>): World
    requires CanRun(w, ls)
    decreases |ls|
  {
    if ls == [] then w else After(Step(w, ls[0]), ls[1..])
  }

  // No token is in two rows, none that was rotated away is in any, none was
  // rotated away twice, and every token ever signed is in a row or has gone in
  // one of the three ways there are.
  ghost predicate Sound(w: World) {
    TokensSound(w) && forall call :: call in w.calls ==> CallOk(w, call)
  }

  ghost predicate TokensSound(w: World) {
    && TableOk(w.table)
    && (forall t :: t in w.issued ==> t.jti < w.table.nextJti)
    && (forall a, b :: 0 <= a < b < |w.spent| ==> w.spent[a] != w.spent[b])
    && (forall t :: Gone(w, t) ==> t in w.issued && !Stored(w.table, t))
    && (forall t :: t in w.issued && !Stored(w.table, t) ==> Gone(w, t))
    && (forall id :: id in w.table.sessions ==> w.table.sessions[id].tokenHash.token in w.issued)
  }

  predicate Gone(w: World, t: Token) {
    t in w.spent || t in w.lost || t in w.ended
  }

  // A call that found a row found it holding its token: that is where the
  // token still is, if it is anywhere.
  ghost predicate CallOk(w: World, call: Call) {
    match call
    case Presented(t) => t in w.issued
    case Found(id, t) => t in w.issued && t !in w.lost && id < w.table.nextId
                         && (Stored(w.table, t) ==> Holds(w.table, id, t))
    case Unknown(t) => t in w.issued
    case _ => true
  }

  function Start(now: int): World {
    World(Table(map[], 0, 0), now, [], {}, [], {}, {})
  }

  // The token of a sign-in can be presented for thirty days, to the second.
  lemma GoodForThirtyDays(w: World, userId: int, userAgent: string, later: int)
    requires w.now <= later
    ensures var ls, t := [SignIn(userId, userAgent), Tick(later)], Sign(w.table, userId, w.now);
            && CanRun(w, ls) && t.userId == userId
            && (Enabled(After(w, ls), Present(t)) <==> later / 1000 - w.now / 1000 < 30 * 24 * 60 * 60)
  {
    var w1 := Step(w, SignIn(userId, userAgent));
    var w2 := Step(w1, Tick(later));
    assert CanRun(w2, []) && After(w2, []) == w2;
    OneFirst(w1, Tick(later), []);
    OneFirst(w, SignIn(userId, userAgent), [Tick(later)] + []);
    assert [SignIn(userId, userAgent)] + ([Tick(later)] + []) == [SignIn(userId, userAgent), Tick(later)];
  }

  lemma StartIsSound(now: int)
    ensures Sound(Start(now))
  {
  }

  lemma EndingKeepsSound(w: World, gone: set<nat>)
    requires Sound(w)
    ensures Sound(Ending(w, gone))
  {
    var after := Ending(w, gone);
    WithoutOk(w.table, gone);
    forall t | t in after.ended ensures t in w.issued && (t in w.ended || !Stored(after.table, t)) {
      if t !in w.ended {
        var id :| id in gone && id in w.table.sessions && w.table.sessions[id].tokenHash.token == t;
        assert Holds(w.table, id, t);
      }
    }
    forall t | t in w.issued && !Stored(after.table, t) ensures Gone(after, t) {
      if Stored(w.table, t) {
        var id :| id in w.table.sessions && Holds(w.table, id, t);
        assert id in gone;
      }
    }
    forall call | call in w.calls ensures CallOk(after, call) {
      assert CallOk(w, call);
    }
  }

  lemma OneCallChanged(w: World, c: nat, call: Call)
    requires Sound(w) && c < |w.calls| && CallOk(w, call)
    ensures Sound(w.(calls := w.calls[c := call]))
  {
    var after := w.(calls := w.calls[c := call]);
    forall k | k in after.calls ensures CallOk(after, k) {
      assert k == call || k in w.calls;
    }
  }

  lemma FinishKeepsSound(w: World, c: nat)
    requires Sound(w) && c < |w.calls|
    ensures Sound(Finish(w, c))
  {
    OneCallChanged(w, c, Done);
  }

  lemma SignInKeepsSound(w: World, userId: int, userAgent: string)
    requires Sound(w)
    ensures Sound(Step(w, SignIn(userId, userAgent)))
  {
    IssueOk(w.table, userId, userAgent, w.now);
  }

  lemma LookupKeepsSound(w: World, c: nat)
    requires Sound(w) && Enabled(w, Lookup(c))
    ensures Sound(Step(w, Lookup(c)))
  {
    assert CallOk(w, w.calls[c]);
    OneCallChanged(w, c, LookedUp(w, w.calls[c].t));
  }

  lemma RotationKeepsTokens(w: World, id: nat, t: Token)
    requires TokensSound(w) && t in w.issued
    ensures TokensSound(Rotating(w, id, t))
  {
    if Holds(w.table, id, t) {
      LandedKeepsTokens(w, id, t);
    } else {
      LostKeepsTokens(w, id, t);
    }
  }

  lemma LandedKeepsTokens(w: World, id: nat, t: Token)
    requires TokensSound(w) && t in w.issued && Holds(w.table, id, t)
    ensures TokensSound(Rotating(w, id, t))
  {
    hide Sign, Rotate, Stored, RowOk, TableOk;
    RotateOk(w.table, id, t, w.now);
    SignedIsNew(w, id, t);
    LandedStores(w, id, t);
    RowsOwner(w, id, t);
  }

  lemma RowsOwner(w: World, id: nat, t: Token)
    requires TokensSound(w) && Holds(w.table, id, t)
    ensures w.table.sessions[id].userId == t.userId && Stored(w.table, t)
  {
    assert RowOk(w.table, id);
  }

  // A rotation that lands puts one token in and takes one out.
  lemma LandedStores(w: World, id: nat, t: Token)
    requires TokensSound(w) && Holds(w.table, id, t)
    ensures var signed := Sign(w.table, t.userId, w.now);
            forall x :: Stored(Rotate(w.table, id, t, w.now), x) <==> x == signed || (Stored(w.table, x) && x != t)
  {
    var after, signed := Rotate(w.table, id, t, w.now), Sign(w.table, t.userId, w.now);
    RotateOk(w.table, id, t, w.now);
    RowsOwner(w, id, t);
    forall x | Stored(after, x) && x != signed ensures Stored(w.table, x) {
      var k :| k in after.sessions && Holds(after, k, x);
      assert Holds(w.table, k, x);
    }
  }

  lemma LostKeepsTokens(w: World, id: nat, t: Token)
    requires TokensSound(w) && t in w.issued && !Holds(w.table, id, t)
    ensures TokensSound(Rotating(w, id, t))
  {
    hide Sign, Rotate;
    RotateOk(w.table, id, t, w.now);
    SignedIsNew(w, id, t);
    assert forall x :: Stored(Rotating(w, id, t).table, x) <==> Stored(w.table, x);
  }

  lemma SignedIsNew(w: World, id: nat, t: Token)
    requires TokensSound(w)
    ensures var signed := Sign(w.table, t.userId, w.now);
            && signed !in w.issued && !Stored(w.table, signed)
            && signed.jti < Rotate(w.table, id, t, w.now).nextJti
            && w.table.nextJti <= Rotate(w.table, id, t, w.now).nextJti
            && (Holds(w.table, id, t) ==>
                  Rotate(w.table, id, t, w.now).sessions[id].tokenHash.token
                    == Sign(w.table, w.table.sessions[id].userId, w.now)
                  && forall k :: k in w.table.sessions && k != id ==>
                       Rotate(w.table, id, t, w.now).sessions[k] == w.table.sessions[k])
  {
  }

  lemma RotationKeepsCalls(w: World, id: nat, t: Token, call: Call)
    requires TokensSound(w) && t in w.issued && CallOk(w, call)
    ensures CallOk(Rotating(w, id, t), call)
  {
    RotateOk(w.table, id, t, w.now);
    var after := Rotating(w, id, t);
    if call.Found? && Stored(after.table, call.t) {
      var k :| k in after.table.sessions && Holds(after.table, k, call.t);
      assert Holds(w.table, k, call.t);
      assert Stored(w.table, call.t);
    }
  }

  lemma RotationKeepsSound(w: World, c: nat)
    requires Sound(w) && Enabled(w, Write(c)) && w.calls[c].Found?
    ensures Sound(Step(w, Write(c)))
  {
    hide TokensSound, CallOk;
    var id, t := w.calls[c].id, w.calls[c].t;
    assert CallOk(w, w.calls[c]);
    assert t in w.issued by { FoundIsIssued(w, w.calls[c]); }
    FinishKeepsSound(w, c);
    RotationKeepsTokens(Finish(w, c), id, t);
    forall call | call in Finish(w, c).calls ensures CallOk(Rotating(Finish(w, c), id, t), call) {
      RotationKeepsCalls(Finish(w, c), id, t, call);
    }
  }

  lemma FoundIsIssued(w: World, call: Call)
    requires call.Found? && CallOk(w, call)
    ensures call.t in w.issued
  {
  }

  lemma StepKeepsSound(w: World, l: Label)
    requires Sound(w) && Enabled(w, l)
    ensures Sound(Step(w, l))
  {
    hide TokensSound, CallOk, Ending, Rotating;
    match l {
      case SignIn(userId, userAgent) => SignInKeepsSound(w, userId, userAgent);
      case Housekeeping(userId) => EndingKeepsSound(w, ExpiredOf(w.table, userId, w.now));
      case Lookup(c) => LookupKeepsSound(w, c);
      case Write(c) =>
        FinishKeepsSound(w, c);
        if w.calls[c].Found? {
          RotationKeepsSound(w, c);
        } else if w.calls[c].Unknown? {
          EndingKeepsSound(Finish(w, c), OfUser(w.table, w.calls[c].t.userId));
        } else {
          EndingKeepsSound(Finish(w, c), {w.calls[c].id});
        }
      case EndDeactivated(c) =>
        FinishKeepsSound(w, c);
        EndingKeepsSound(Finish(w, c), OfUser(w.table, w.calls[c].t.userId));
      case Logout(t) => EndingKeepsSound(w, WithHash(w.table, t));
      case EndSession(userId, id) => EndingKeepsSound(w, if id in OfUser(w.table, userId) then {id} else {});
      case EndAll(userId) => EndingKeepsSound(w, OfUser(w.table, userId));
      case ChangePassword(userId, keep) => EndingKeepsSound(w, OthersOf(w.table, userId, keep));
      case Present(t) => PresentKeepsSound(w, t);
      case Tick(to) => TickKeepsSound(w, to);
    }
  }

  lemma PresentKeepsSound(w: World, t: Token)
    requires Sound(w) && t in w.issued
    ensures Sound(w.(calls := w.calls + [Presented(t)]))
  {
  }

  lemma TickKeepsSound(w: World, to: int)
    requires Sound(w)
    ensures Sound(w.(now := to))
  {
  }

  lemma GoneForGood(w: World, l: Label, t: Token)
    requires Enabled(w, l) && Gone(w, t)
    ensures Gone(Step(w, l), t)
  {
  }

  // In any run, with any number of calls in flight and whoever presents
  // which token: hashes stay distinct, a token replaces a row's hash at most
  // once, and once replaced it is in no row ever again.
  lemma {:induction false} RotatedAtMostOnce(w: World, ls: seq<Label>)
    requires Sound(w) && CanRun(w, ls)
    ensures Sound(After(w, ls))
    ensures w.spent <= After(w, ls).spent
    ensures forall t :: Gone(w, t) ==> Gone(After(w, ls), t)
    decreases |ls|
  {
    if ls != [] {
      StepKeepsSound(w, ls[0]);
      forall t | Gone(w, t) ensures Gone(Step(w, ls[0]), t) {
        GoneForGood(w, ls[0], t);
      }
      RotatedAtMostOnce(Step(w, ls[0]), ls[1..]);
    }
  }

  // A live token is taken for a replay exactly when it was rotated away, was
  // signed by a rotation that did not land, or its row was deleted.
  lemma UnknownExactlyWhen(w: World, t: Token)
    requires Sound(w) && t in w.issued && Verifies(t, w.now)
    ensures LookedUp(w, t) == Unknown(t) <==> Gone(w, t)
    ensures LookedUp(w, t).Found? <==> !Gone(w, t)
  {
    var row := FindRow(w.table, w.table.nextId, t);
    if row.Some? {
      assert Stored(w.table, t);
      LiveRowNotExpired(w.table, row.value, t, w.now);
    } else {
      forall id | id in w.table.sessions ensures !Holds(w.table, id, t) {
        assert RowOk(w.table, id);
      }
    }
  }

  // A replayed token is caught: one that has gone in any of those ways is
  // found in no row however the run went on, so presenting it ends every
  // session it could.
  lemma ReplayIsCaught(w: World, ls: seq<Label>, t: Token)
    requires Sound(w) && CanRun(w, ls) && Gone(w, t)
    ensures LookedUp(After(w, ls), t) == Unknown(t)
  {
    RotatedAtMostOnce(w, ls);
    var w' := After(w, ls);
    assert Gone(w', t);
    assert forall id :: id in w'.table.sessions ==> !Holds(w'.table, id, t);
  }

  // ---- two refreshes with one token ----

  // What a call that found its row signs when it writes.
  function Answer(w: World, c: nat): Token
    requires Enabled(w, Write(c)) && w.calls[c].Found?
  {
    Sign(w.table, w.calls[c].t.userId, w.now)
  }

  // The write of a call that found its row rotates exactly when its token has
  // not gone since. If it has, the call answers all the same, with a token no
  // row holds and none ever will.
  lemma RotatesExactlyWhen(w: World, c: nat)
    requires Sound(w) && Enabled(w, Write(c)) && w.calls[c].Found?
    ensures var t, after, answer := w.calls[c].t, Step(w, Write(c)), Answer(w, c);
            if !Gone(w, t) then Stored(after.table, answer) && after.spent == w.spent + [t]
            else after.table.sessions == w.table.sessions && answer in after.lost && Gone(after, answer)
                 && after.spent == w.spent
  {
    var id, t := w.calls[c].id, w.calls[c].t;
    assert CallOk(w, w.calls[c]);
    RotateOk(w.table, id, t, w.now);
    if Holds(w.table, id, t) {
      RowsOwner(w, id, t);
    } else {
      assert !Stored(w.table, t);
    }
  }

  // Of the refreshes made with one token, one rotates it. Every other that
  // completes, in any run, is poisoned: it ends the account's sessions there
  // and then, or leaves its caller a token that will.
  lemma OthersArePoisoned(w: World, ls: seq<Label>, c: nat, t: Token)
    requires Sound(w) && t in w.spent && CanRun(w, ls) && Enabled(After(w, ls), Write(c))
    requires After(w, ls).calls[c].Found? || After(w, ls).calls[c].Unknown?
    requires After(w, ls).calls[c].t == t
    ensures var w' := After(w, ls);
            var after := Step(w', Write(c));
            if w'.calls[c].Unknown? then OfUser(after.table, t.userId) == {}
            else after.table.sessions == w'.table.sessions && Answer(w', c) in after.lost
                 && LookedUp(after, Answer(w', c)) == Unknown(Answer(w', c))
  {
    RotatedAtMostOnce(w, ls);
    var w' := After(w, ls);
    assert Gone(w', t);
    if w'.calls[c].Found? {
      RotatesExactlyWhen(w', c);
      StepKeepsSound(w', Write(c));
      ReplayIsCaught(Step(w', Write(c)), [], Answer(w', c));
    }
  }

  // ---- the start-up refresh beside the shared one ----

  // A signed-in account with nothing in flight.
  ghost predicate SignedIn(w: World, id: nat, t: Token) {
    Sound(w) && w.calls == [] && Holds(w.table, id, t) && Verifies(t, w.now)
  }

  // What the second of two rotations with the same token answers.
  function SecondAnswer(w: World, id: nat, t: Token): Token {
    Sign(Rotate(w.table, id, t, w.now), t.userId, w.now)
  }

  // Both look before either writes ...
  function BothLookFirst(answer: Token, t: Token): seq<Label> {
    [Present(t), Present(t), Lookup(0), Lookup(1), Write(0), Write(1)] + [Present(answer), Lookup(2), Write(2)]
  }

  // ... or the second looks after the first has written.
  function OneThenTheOther(t: Token): seq<Label> {
    [Present(t), Present(t), Lookup(0), Write(0), Lookup(1), Write(1)]
  }

  lemma RunSix(w: World, ls: seq<Label>, more: seq<Label>, w1: World, w2: World, w3: World, w4: World, w5: World,
               w6: World)
    requires |ls| == 6
    requires Enabled(w, ls[0]) && w1 == Step(w, ls[0]) && Enabled(w1, ls[1]) && w2 == Step(w1, ls[1])
    requires Enabled(w2, ls[2]) && w3 == Step(w2, ls[2]) && Enabled(w3, ls[3]) && w4 == Step(w3, ls[3])
    requires Enabled(w4, ls[4]) && w5 == Step(w4, ls[4]) && Enabled(w5, ls[5]) && w6 == Step(w5, ls[5])
    requires CanRun(w6, more)
    ensures CanRun(w, ls + more) && After(w, ls + more) == After(w6, more)
  {
    hide Step, Enabled, CanRun, After;
    OneFirst(w5, ls[5], more);
    OneFirst(w4, ls[4], [ls[5]] + more);
    OneFirst(w3, ls[3], [ls[4]] + ([ls[5]] + more));
    OneFirst(w2, ls[2], [ls[3]] + ([ls[4]] + ([ls[5]] + more)));
    OneFirst(w1, ls[1], [ls[2]] + ([ls[3]] + ([ls[4]] + ([ls[5]] + more))));
    OneFirst(w, ls[0], [ls[1]] + ([ls[2]] + ([ls[3]] + ([ls[4]] + ([ls[5]] + more)))));
    assert ls + more == [ls[0]] + ([ls[1]] + ([ls[2]] + ([ls[3]] + ([ls[4]] + ([ls[5]] + more)))));
  }

  lemma OneFirst(w: World, l: Label, more: seq<Label>)
    requires Enabled(w, l) && CanRun(Step(w, l), more)
    ensures CanRun(w, [l] + more) && After(w, [l] + more) == After(Step(w, l), more)
  {
    assert ([l] + more)[1..] == more;
  }

  // The account is signed out on every device, at once in the second order,
  // in the first when the second answer is next used.
  lemma StartupRefreshSignsOut(w: World, id: nat, t: Token)
    requires SignedIn(w, id, t)
    ensures CanRun(w, OneThenTheOther(t)) && OfUser(After(w, OneThenTheOther(t)).table, t.userId) == {}
  {
    SignedInLooksUp(w, id, t);
    hide Sound, Rotating, Ending, LookedUp, Holds;
    var w1 := w.(calls := [Presented(t)]);
    var w2 := w.(calls := [Presented(t), Presented(t)]);
    var w3 := w.(calls := [Found(id, t), Presented(t)]);
    var w4 := Rotating(w.(calls := [Done, Presented(t)]), id, t);
    var w5 := w4.(calls := [Done, Unknown(t)]);
    SecondFindsNothing(w, id, t);
    var w6 := Ending(Finish(w5, 1), OfUser(w5.table, t.userId));
    RunSix(w, OneThenTheOther(t), [], w1, w2, w3, w4, w5, w6);
    assert OneThenTheOther(t) + [] == OneThenTheOther(t);
    EndedAll(Finish(w5, 1), t.userId);
  }

  lemma SignedInLooksUp(w: World, id: nat, t: Token)
    requires SignedIn(w, id, t)
    ensures t in w.issued && id in OfUser(w.table, t.userId)
    ensures forall calls :: LookedUp(w.(calls := calls), t) == Found(id, t)
  {
    RowsOwner(w, id, t);
    assert RowOk(w.table, id);
    assert FindRow(w.table, w.table.nextId, t) == Some(id);
    LiveRowNotExpired(w.table, id, t, w.now);
  }

  lemma SecondFindsNothing(w: World, id: nat, t: Token)
    requires SignedIn(w, id, t)
    ensures forall calls :: Rotating(w.(calls := calls), id, t).calls == calls
    ensures forall calls :: Rotating(w.(calls := calls), id, t).now == w.now
    ensures forall calls :: LookedUp(Rotating(w, id, t).(calls := calls), t) == Unknown(t)
    ensures forall calls :: Rotating(w.(calls := calls), id, t) == Rotating(w, id, t).(calls := calls)
  {
    RotateOk(w.table, id, t, w.now);
    var after := Rotating(w, id, t);
    assert !Stored(after.table, t);
    assert FindRow(after.table, after.table.nextId, t) == None;
  }

  lemma EndedAll(w: World, userId: int)
    ensures OfUser(Ending(w, OfUser(w.table, userId)).table, userId) == {}
  {
  }

  lemma BothLook(w: World, id: nat, t: Token)
    requires SignedIn(w, id, t)
    ensures var w2 := w.(calls := [Presented(t), Presented(t)]);
            var w4 := w.(calls := [Found(id, t), Found(id, t)]);
            && Enabled(w, Present(t)) && Enabled(Step(w, Present(t)), Present(t))
            && Step(Step(w, Present(t)), Present(t)) == w2
            && Enabled(w2, Lookup(0)) && Enabled(Step(w2, Lookup(0)), Lookup(1))
            && Step(Step(w2, Lookup(0)), Lookup(1)) == w4
  {
    SignedInLooksUp(w, id, t);
    hide Sound, LookedUp, Holds;
    assert Step(Step(w, Present(t)), Present(t)).calls == [Presented(t), Presented(t)];
    var w2 := w.(calls := [Presented(t), Presented(t)]);
    assert Step(w2, Lookup(0)) == w.(calls := [Found(id, t), Presented(t)]);
  }

  lemma BothWrite(w: World, id: nat, t: Token)
    requires w.calls == [Found(id, t), Found(id, t)]
    ensures var w5 := Rotating(w.(calls := [Done, Found(id, t)]), id, t);
            && Enabled(w, Write(0)) && Step(w, Write(0)) == w5
            && Enabled(w5, Write(1)) && Step(w5, Write(1)) == Rotating(w5.(calls := [Done, Done]), id, t)
  {
  }

  lemma SecondAnswerSignsOut(w: World, id: nat, t: Token)
    requires SignedIn(w, id, t)
    ensures CanRun(w, BothLookFirst(SecondAnswer(w, id, t), t))
    ensures OfUser(After(w, BothLookFirst(SecondAnswer(w, id, t), t)).table, t.userId) == {}
  {
    hide SignedIn, Rotating, Ending, LookedUp, Holds, Step, Enabled, OfUser, Verifies, CanRun, After;
    var answer := SecondAnswer(w, id, t);
    var w2 := w.(calls := [Presented(t), Presented(t)]);
    var w4 := w.(calls := [Found(id, t), Found(id, t)]);
    var w5 := Rotating(w4.(calls := [Done, Found(id, t)]), id, t);
    var w6 := Rotating(w5.(calls := [Done, Done]), id, t);
    var more := [Present(answer), Lookup(2), Write(2)];
    BothLook(w, id, t);
    BothWrite(w4, id, t);
    SecondRotatesNothing(w, id, t);
    PresentedAnswer(w6, answer);
    RunSix(w, [Present(t), Present(t), Lookup(0), Lookup(1), Write(0), Write(1)], more,
           Step(w, Present(t)), w2, Step(w2, Lookup(0)), w4, w5, w6);
  }

  lemma SecondRotatesNothing(w: World, id: nat, t: Token)
    requires SignedIn(w, id, t)
    ensures var w5 := Rotating(w.(calls := [Done, Found(id, t)]), id, t);
            var w6 := Rotating(w5.(calls := [Done, Done]), id, t);
            var answer := SecondAnswer(w, id, t);
            && w5.calls == [Done, Found(id, t)] && w6.calls == [Done, Done] && answer in w6.issued
            && Verifies(answer, w6.now) && answer.userId == t.userId
            && forall calls :: LookedUp(w6.(calls := calls), answer) == Unknown(answer)
  {
    var w5 := Rotating(w.(calls := [Done, Found(id, t)]), id, t);
    var w6 := Rotating(w5.(calls := [Done, Done]), id, t);
    var answer := SecondAnswer(w, id, t);
    RotateOk(w.table, id, t, w.now);
    assert !Holds(w5.table, id, t);
    forall k | k in w6.table.sessions ensures !Holds(w6.table, k, answer) {
      assert RowOk(w5.table, k);
    }
  }

  lemma PresentedAnswer(w: World, answer: Token)
    requires w.calls == [Done, Done] && answer in w.issued && Verifies(answer, w.now)
    requires forall calls :: LookedUp(w.(calls := calls), answer) == Unknown(answer)
    ensures var more := [Present(answer), Lookup(2), Write(2)];
            CanRun(w, more) && OfUser(After(w, more).table, answer.userId) == {}
  {
    var w1 := w.(calls := [Done, Done, Presented(answer)]);
    var w2 := w.(calls := [Done, Done, Unknown(answer)]);
    var w3 := Ending(Finish(w2, 2), OfUser(w2.table, answer.userId));
    EndedAll(Finish(w2, 2), answer.userId);
    hide Ending, LookedUp, Verifies, OfUser;
    assert Step(w, Present(answer)) == w1 && Step(w1, Lookup(2)) == w2 && Step(w2, Write(2)) == w3;
    OneFirst(w2, Write(2), []);
    OneFirst(w1, Lookup(2), [Write(2)] + []);
    OneFirst(w, Present(answer), [Lookup(2)] + ([Write(2)] + []));
    assert [Present(answer)] + ([Lookup(2)] + ([Write(2)] + [])) == [Present(answer), Lookup(2), Write(2)];
  }

  // Rotation in place: a refresh never changes how many devices an account
  // has, nor what any of them is called.
  lemma RefreshKeepsDevices(w: World, c: nat)
    requires Sound(w) && Enabled(w, Write(c)) && w.calls[c].Found?
    ensures var after := Step(w, Write(c)).table;
            && after.sessions.Keys == w.table.sessions.Keys
            && forall id :: id in w.table.sessions ==>
                 after.sessions[id].userId == w.table.sessions[id].userId
                 && after.sessions[id].userAgent == w.table.sessions[id].userAgent
  {
  }
}
