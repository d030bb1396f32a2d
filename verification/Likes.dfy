/** Likes: the rows, the counter kept beside each painting, and the two
    services that must keep them equal. */
module LikeRules {
  import opened Wrappers
  import opened Entities

  datatype Like = Like(userId: int, paintingId: int, createdAt: int)

  // `counts` is the likes_count column, painting by painting.
  datatype Likes = Likes(users: set<int>, rows: map<nat, Like>, next: nat, counts: map<int, int>, nextPainting: int)

  predicate IsFor(like: Like, user: int, p: int) {
    like.userId == user && like.paintingId == p
  }

  // Unique (user, painting), and the two foreign keys.
  ghost predicate Keyed(s: Likes) {
    && (forall id :: id in s.rows ==> id < s.next && s.rows[id].paintingId in s.counts && s.rows[id].userId in s.users)
    && (forall a, b :: a in s.rows && b in s.rows && IsFor(s.rows[a], s.rows[b].userId, s.rows[b].paintingId) ==>
         a == b)
    && (forall p :: p in s.counts ==> p < s.nextPainting)
  }

  function IdsOn(rows: map<nat, Like>, p: int): set<nat> {
    set id | id in rows && rows[id].paintingId == p
  }

  // How far a painting's counter is from the number of its rows.
  function Drift(s: Likes, p: int): int {
    if p in s.counts then s.counts[p] - |IdsOn(s.rows, p)| else 0
  }

  ghost predicate Exact(s: Likes) {
    forall p :: Drift(s, p) == 0
  }

  function Find(rows: map<nat, Like>, n: nat, user: int, p: int): (r: Option<nat>)
    ensures r.Some? ==> r.value < n && r.value in rows && IsFor(rows[r.value], user, p)
    ensures r.None? ==> forall id :: id < n && id in rows ==> !IsFor(rows[id], user, p)
  {
    if n == 0 then None
    else if n - 1 in rows && IsFor(rows[n - 1], user, p) then Some(n - 1)
    else Find(rows, n - 1, user, p)
  }

  predicate HasLiked(s: Likes, user: int, p: int) {
    Find(s.rows, s.next, user, p).Some?
  }

  function Moved(counts: map<int, int>, p: int, step: int): map<int, int> {
    if p in counts then counts[p := counts[p] + step] else counts
  }

  // What a toggle writes, given what it found when it looked. An insert that
  // breaks a constraint rolls the transaction back.
  function WriteToggle(s: Likes, user: int, p: int, found: Option<nat>, now: int): Likes {
    match found
    case Some(id) => s.(rows := s.rows - {id}, counts := Moved(s.counts, p, -1))
    case None =>
      if HasLiked(s, user, p) || user !in s.users || p !in s.counts then s
      else s.(rows := s.rows[s.next := Like(user, p, now)], next := s.next + 1, counts := Moved(s.counts, p, 1))
  }

  // The rows of one user, in id order.
  function LikesOf(rows: map<nat, Like>, n: nat, user: int): seq<Like> {
    if n == 0 then []
    else if n - 1 in rows && rows[n - 1].userId == user then LikesOf(rows, n - 1, user) + [rows[n - 1]]
    else LikesOf(rows, n - 1, user)
  }

  function Times(likes: seq<Like>, p: int): nat {
    if likes == [] then 0
    else Times(likes[..|likes| - 1], p) + if likes[|likes| - 1].paintingId == p then 1 else 0
  }

  function Decremented(counts: map<int, int>, likes: seq<Like>): map<int, int> {
    map p | p in counts :: counts[p] - Times(likes, p)
  }

  // What deleting an account writes, given the likes it read beforehand.
  function WriteDelete(s: Likes, user: int, seen: seq<Like>): Likes {
    s.(users := s.users - {user},
       rows := map id | id in s.rows && s.rows[id].userId != user :: s.rows[id],
       counts := Decremented(s.counts, seen))
  }

  function AddPainting(s: Likes): Likes {
    s.(counts := s.counts[s.nextPainting := 0], nextPainting := s.nextPainting + 1)
  }

  // The rows go with the painting.
  function RemovePainting(s: Likes, p: int): Likes {
    s.(counts := s.counts - {p}, rows := map id | id in s.rows && s.rows[id].paintingId != p :: s.rows[id])
  }

  // The two requests when nothing comes between the read and the writes.
  function Toggle(s: Likes, user: int, p: int, now: int): Result<Likes, Rejection> {
    if p !in s.counts then Err(NotFound)
    else if !HasLiked(s, user, p) && user !in s.users then Err(UnknownUser)
    else Ok(WriteToggle(s, user, p, Find(s.rows, s.next, user, p), now))
  }

  function DeleteUser(s: Likes, user: int): Likes {
    WriteDelete(s, user, LikesOf(s.rows, s.next, user))
  }

  // ---- lemmas ----

  lemma NoneBefore(s: Likes, n: nat, user: int, p: int)
    requires Keyed(s) && n in s.rows && IsFor(s.rows[n], user, p)
    ensures Find(s.rows, n, user, p) == None
  {
  }

  lemma {:induction false} LikesOfOnce(s: Likes, n: nat, user: int, p: int)
    requires Keyed(s)
    ensures Times(LikesOf(s.rows, n, user), p) == if Find(s.rows, n, user, p).Some? then 1 else 0
  {
    hide Keyed;
    if n > 0 {
      LikesOfOnce(s, n - 1, user, p);
      if n - 1 in s.rows && s.rows[n - 1].userId == user {
        var before := LikesOf(s.rows, n - 1, user);
        assert (before + [s.rows[n - 1]])[..|before|] == before;
        if s.rows[n - 1].paintingId == p {
          NoneBefore(s, n - 1, user, p);
        }
      }
    }
  }

  lemma TheirRow(s: Likes, user: int, p: int)
    requires Keyed(s)
    ensures forall id :: id in s.rows && IsFor(s.rows[id], user, p) <==> Find(s.rows, s.next, user, p) == Some(id)
  {
  }

  lemma OneFewer(rows: map<nat, Like>, id: nat, p: int)
    ensures |IdsOn(rows - {id}, p)| == |IdsOn(rows, p)| - if id in IdsOn(rows, p) then 1 else 0
  {
    assert IdsOn(rows - {id}, p) == IdsOn(rows, p) - {id};
  }

  lemma OneMore(rows: map<nat, Like>, id: nat, like: Like, p: int)
    requires id !in rows
    ensures |IdsOn(rows[id := like], p)| == |IdsOn(rows, p)| + if like.paintingId == p then 1 else 0
  {
    assert IdsOn(rows[id := like], p) == IdsOn(rows, p) + if like.paintingId == p then {id} else {};
  }

  // Deleting an account takes at most one row from each painting.
  lemma WithoutTheirRow(s: Likes, user: int, seen: seq<Like>, p: int)
    requires Keyed(s)
    ensures |IdsOn(WriteDelete(s, user, seen).rows, p)| == |IdsOn(s.rows, p)| - if HasLiked(s, user, p) then 1 else 0
  {
    TheirRow(s, user, p);
    var after := IdsOn(WriteDelete(s, user, seen).rows, p);
    if HasLiked(s, user, p) {
      var id := Find(s.rows, s.next, user, p).value;
      assert after == IdsOn(s.rows, p) - {id};
    } else {
      assert after == IdsOn(s.rows, p);
    }
  }

  // Liking and taking it back (or the other way round) leaves who likes what
  // and every counter as they were; on the way, one pair and one counter moved.
  lemma ToggleTwice(s: Likes, user: int, p: int, now: int, later: int)
    requires Keyed(s) && p in s.counts && user in s.users
    ensures Toggle(s, user, p, now).Ok? && Toggle(Toggle(s, user, p, now).value, user, p, later).Ok?
    ensures Toggled(s, Toggle(s, user, p, now).value, user, p)
    ensures var twice := Toggle(Toggle(s, user, p, now).value, user, p, later).value;
            twice.counts == s.counts && forall u, q :: HasLiked(twice, u, q) <==> HasLiked(s, u, q)
  {
    hide Toggle, Keyed, HasLiked;
    ToggleOnce(s, user, p, now);
    ToggleOnce(Toggle(s, user, p, now).value, user, p, later);
  }

  ghost predicate Toggled(s: Likes, after: Likes, user: int, p: int)
    requires p in s.counts
  {
    && (forall u, q :: HasLiked(after, u, q) <==> if u == user && q == p then !HasLiked(s, u, q) else HasLiked(s, u, q))
    && after.counts == s.counts[p := s.counts[p] + if HasLiked(s, user, p) then -1 else 1]
  }

  lemma ToggleOnce(s: Likes, user: int, p: int, now: int)
    requires Keyed(s) && p in s.counts && user in s.users
    ensures Toggle(s, user, p, now).Ok? && Keyed(Toggle(s, user, p, now).value)
    ensures Toggle(s, user, p, now).value.users == s.users && Toggled(s, Toggle(s, user, p, now).value, user, p)
  {
    var after := Toggle(s, user, p, now).value;
    ToggleKeyed(s, user, p, Find(s.rows, s.next, user, p), now);
    TheirRow(s, user, p);
    forall u, q
      ensures HasLiked(after, u, q) <==> if u == user && q == p then !HasLiked(s, u, q) else HasLiked(s, u, q)
    {
      TheirRow(s, u, q);
      TheirRow(after, u, q);
      if HasLiked(s, u, q) && !(u == user && q == p) {
        var id := Find(s.rows, s.next, u, q).value;
        assert id in after.rows && IsFor(after.rows[id], u, q);
      }
    }
  }

  // A toggle is accepted exactly of a painting there is, by an account there
  // is (or, taking a like back, one that has it).
  lemma ToggleExactlyWhen(s: Likes, user: int, p: int, now: int)
    ensures Toggle(s, user, p, now).Ok? <==> p in s.counts && (user in s.users || HasLiked(s, user, p))
    ensures Toggle(s, user, p, now) == Err(NotFound) <==> p !in s.counts
  {
  }

  // What a toggle found is its own row, even if that row has gone since.
  ghost predicate Finds(s: Likes, user: int, p: int, found: Option<nat>) {
    found.Some? ==> found.value < s.next && (found.value in s.rows ==> IsFor(s.rows[found.value], user, p))
  }

  lemma ToggleKeyed(s: Likes, user: int, p: int, found: Option<nat>, now: int)
    requires Keyed(s) && Finds(s, user, p, found)
    ensures Keyed(WriteToggle(s, user, p, found, now))
  {
  }
}

/** Toggles and account deletions in flight together: each reads first and
    writes later, and any of the others may come in between. */
module LikeTraffic {
  import opened Wrappers
  import opened LikeRules

  datatype Request =
    | Toggling(user: int, p: int, now: int, found: Option<nat>)
    | Leaving(user: int, seen: seq<Like>)

  datatype Traffic = Traffic(tables: Likes, open: map<nat, Request>)

  datatype Step =
    | BeginToggle(t: nat, user: int, p: int, now: int)
    | BeginDelete(t: nat, user: int)
    | Finish(t: nat)
    | GiveUp(t: nat)
    | SignUp(user: int)
    | AddPainting
    | RemovePainting(p: int)

  function Write(s: Likes, request: Request): Likes {
    match request
    case Toggling(user, p, now, found) => WriteToggle(s, user, p, found, now)
    case Leaving(user, seen) => WriteDelete(s, user, seen)
  }

  // A step that makes no sense where the run has got to does nothing.
  function Apply(w: Traffic, step: Step): Traffic {
    var s := w.tables;
    match step
    case BeginToggle(t, user, p, now) =>
      if t in w.open || p !in s.counts then w
      else w.(open := w.open[t := Toggling(user, p, now, Find(s.rows, s.next, user, p))])
    case BeginDelete(t, user) =>
      if t in w.open || user !in s.users then w
      else w.(open := w.open[t := Leaving(user, LikesOf(s.rows, s.next, user))])
    case Finish(t) => if t in w.open then Traffic(Write(s, w.open[t]), w.open - {t}) else w
    case GiveUp(t) => w.(open := w.open - {t})
    case SignUp(user) => w.(tables := s.(users := s.users + {user}))
    case AddPainting => w.(tables := LikeRules.AddPainting(s))
    case RemovePainting(p) => w.(tables := LikeRules.RemovePainting(s, p))
  }

  function Run(w: Traffic, steps: seq<Step>): Traffic {
    if steps == [] then w else Apply(Run(w, steps[..|steps| - 1]), steps[|steps| - 1])
  }

  // ---- what holds whatever comes between ----

  ghost predicate Honest(s: Likes, request: Request) {
    request.Toggling? ==> Finds(s, request.user, request.p, request.found)
  }

  ghost predicate Sound(w: Traffic) {
    Keyed(w.tables) && forall t :: t in w.open ==> Honest(w.tables, w.open[t])
  }

  lemma WriteKeeps(s: Likes, request: Request, other: Request)
    requires Keyed(s) && Honest(s, request) && Honest(s, other)
    ensures Keyed(Write(s, request)) && Honest(Write(s, request), other)
  {
  }

  // At most one like per user and painting, in every interleaving.
  lemma SoundKept(w: Traffic, step: Step)
    requires Sound(w)
    ensures Sound(Apply(w, step))
  {
    hide Keyed, Find, WriteToggle, WriteDelete, LikesOf;
    var s, after := w.tables, Apply(w, step);
    match step {
      case Finish(t) =>
        if t in w.open {
          WriteKeeps(s, w.open[t], w.open[t]);
          forall u | u in after.open ensures Honest(after.tables, after.open[u]) {
            WriteKeeps(s, w.open[t], w.open[u]);
          }
        }
      case SignUp(user) => SignUpKeyed(s, user);
      case AddPainting => PaintingsKeyed(s, 0);
      case RemovePainting(p) => PaintingsKeyed(s, p);
      case _ =>
    }
  }

  lemma SignUpKeyed(s: Likes, user: int)
    requires Keyed(s)
    ensures Keyed(s.(users := s.users + {user}))
  {
  }

  lemma PaintingsKeyed(s: Likes, p: int)
    requires Keyed(s)
    ensures Keyed(LikeRules.AddPainting(s)) && Keyed(LikeRules.RemovePainting(s, p))
  {
  }

  // ---- each request on its own ----

  // Begun and finished with nothing in between, each is its whole request;
  // one that is turned away changes nothing.
  lemma AtOnceIsRequest(w: Traffic, t: nat, user: int, p: int, now: int)
    requires t !in w.open
    ensures Run(w, [BeginToggle(t, user, p, now), Finish(t)])
            == w.(tables := match Toggle(w.tables, user, p, now)
                            case Ok(after) => after
                            case Err(_) => w.tables)
    ensures Run(w, [BeginDelete(t, user), Finish(t)])
            == w.(tables := if user in w.tables.users then DeleteUser(w.tables, user) else w.tables)
  {
    hide Find, LikesOf, Toggle, WriteToggle, WriteDelete;
    TwoSteps(w, BeginToggle(t, user, p, now), Finish(t));
    TwoSteps(w, BeginDelete(t, user), Finish(t));
    var s := w.tables;
    ToggleWrites(s, user, p, now);
    NoTrace(w.open, t, Toggling(user, p, now, Find(s.rows, s.next, user, p)));
    NoTrace(w.open, t, Leaving(user, LikesOf(s.rows, s.next, user)));
  }

  lemma NoTrace(open: map<nat, Request>, t: nat, request: Request)
    requires t !in open
    ensures open[t := request] - {t} == open
  {
  }

  lemma ToggleWrites(s: Likes, user: int, p: int, now: int)
    ensures (match Toggle(s, user, p, now) case Ok(after) => after case Err(_) => s)
            == if p in s.counts then WriteToggle(s, user, p, Find(s.rows, s.next, user, p), now) else s
  {
  }

  lemma TwoSteps(w: Traffic, a: Step, b: Step)
    ensures Run(w, [a, b]) == Apply(Apply(w, a), b)
  {
    assert [a, b][..1] == [a] && [a][..0] == [];
    assert Run(w, []) == w;
  }

  // An account more; a painting more, that nobody likes yet; a painting less,
  // and with it exactly the likes it had.
  lemma ComingsAndGoings(w: Traffic, user: int, p: int)
    requires Keyed(w.tables)
    ensures Apply(w, SignUp(user)) == w.(tables := w.tables.(users := w.tables.users + {user}))
    ensures var s, after := w.tables, Apply(w, AddPainting).tables;
            && s.nextPainting !in s.counts && s.nextPainting in after.counts && after.counts[s.nextPainting] == 0
            && after.counts - {s.nextPainting} == s.counts && after.rows == s.rows && after.users == s.users
            && after.nextPainting > s.nextPainting
    ensures var s, after := w.tables, Apply(w, RemovePainting(p)).tables;
            && after.counts == s.counts - {p} && after.users == s.users && after.nextPainting == s.nextPainting
            && (forall id :: id in after.rows <==> id in s.rows && s.rows[id].paintingId != p)
            && forall id :: id in after.rows ==> after.rows[id] == s.rows[id]
  {
  }

  // ---- when the counters stay exact ----

  // What a request read no longer is what it is about to write over: the like
  // it means to take back has gone, or an account's likes have changed since
  // they were listed. Paintings withdrawn meanwhile do not matter.
  ghost predicate Stale(s: Likes, request: Request) {
    match request
    case Toggling(_, p, _, found) => found.Some? && found.value !in s.rows && p in s.counts
    case Leaving(user, seen) => exists p :: p in s.counts && Misread(s, user, seen, p)
  }

  ghost predicate Misread(s: Likes, user: int, seen: seq<Like>, p: int) {
    Times(seen, p) != if HasLiked(s, user, p) then 1 else 0
  }

  // How far a request throws one counter off.
  function Slip(s: Likes, request: Request, q: int): int {
    if q !in s.counts then 0
    else
      match request
      case Toggling(_, p, _, found) => if found.Some? && found.value !in s.rows && p == q then -1 else 0
      case Leaving(user, seen) => (if HasLiked(s, user, q) then 1 else 0) - Times(seen, q)
  }

  lemma SlipIsExact(s: Likes, request: Request, q: int)
    requires Keyed(s) && Honest(s, request)
    ensures Drift(Write(s, request), q) == Drift(s, q) + Slip(s, request, q)
  {
    match request {
      case Toggling(user, p, now, found) =>
        if found.Some? {
          OneFewer(s.rows, found.value, q);
        } else {
          OneMore(s.rows, s.next, Like(user, p, now), q);
        }
      case Leaving(user, seen) => WithoutTheirRow(s, user, seen, q);
    }
  }

  // From exact counters a step leads to exact counters just when it is not
  // the writing half of a request whose read has gone stale.
  lemma ExactKept(w: Traffic, step: Step)
    requires Sound(w) && Exact(w.tables)
    ensures Exact(Apply(w, step).tables) <==> !(step.Finish? && step.t in w.open && Stale(w.tables, w.open[step.t]))
  {
    hide Keyed, Find, WriteToggle, WriteDelete, LikesOf, Times;
    var s := w.tables;
    match step {
      case Finish(t) =>
        if t in w.open {
          forall q ensures Drift(Write(s, w.open[t]), q) == Slip(s, w.open[t], q) {
            SlipIsExact(s, w.open[t], q);
          }
          StaleSlips(s, w.open[t]);
        }
      case AddPainting => NewPaintingExact(s);
      case RemovePainting(p) => GonePaintingExact(s, p);
      case SignUp(user) =>
        forall q ensures Drift(Apply(w, step).tables, q) == 0 {
          assert Drift(s, q) == 0;
        }
      case _ =>
    }
  }

  lemma StaleSlips(s: Likes, request: Request)
    ensures Stale(s, request) <==> exists q :: Slip(s, request, q) != 0
  {
    if Stale(s, request) {
      match request {
        case Toggling(_, p, _, _) => assert Slip(s, request, p) != 0;
        case Leaving(user, seen) =>
          var p :| p in s.counts && Misread(s, user, seen, p);
          assert Slip(s, request, p) != 0;
      }
    } else if request.Leaving? {
      forall q ensures Slip(s, request, q) == 0 {
        assert q in s.counts ==> !Misread(s, request.user, request.seen, q);
      }
    }
  }

  lemma NewPaintingExact(s: Likes)
    requires Keyed(s) && Exact(s)
    ensures Exact(LikeRules.AddPainting(s))
  {
    var after := LikeRules.AddPainting(s);
    forall p ensures Drift(after, p) == 0 {
      assert Drift(s, p) == 0;
      if p == s.nextPainting {
        assert IdsOn(s.rows, p) == {};
      }
    }
  }

  lemma GonePaintingExact(s: Likes, p: int)
    requires Exact(s)
    ensures Exact(LikeRules.RemovePainting(s, p))
  {
    var after := LikeRules.RemovePainting(s, p);
    forall q ensures Drift(after, q) == 0 {
      assert Drift(s, q) == 0;
      if q != p {
        assert IdsOn(after.rows, q) == IdsOn(s.rows, q);
      }
    }
  }

  // ---- one toggle per user and painting at a time, and none beside a deletion ----

  // Whether a request writes a user's like of a painting.
  predicate Touches(request: Request, user: int, p: int) {
    request.user == user && (request.Toggling? ==> request.p == p)
  }

  predicate Clash(a: Request, b: Request) {
    a.user == b.user && (a.Toggling? && b.Toggling? ==> a.p == b.p)
  }

  predicate WaitsItsTurn(w: Traffic, step: Step) {
    match step
    case BeginToggle(_, user, p, _) => forall t :: t in w.open ==> !Touches(w.open[t], user, p)
    case BeginDelete(_, user) => forall t :: t in w.open ==> w.open[t].user != user
    case _ => true
  }

  ghost predicate OneAtATime(w: Traffic, steps: seq<Step>) {
    forall i :: 0 <= i < |steps| ==> WaitsItsTurn(Run(w, steps[..i]), steps[i])
  }

  ghost predicate Current(s: Likes, request: Request) {
    match request
    case Toggling(user, p, _, found) => p in s.counts ==> found == Find(s.rows, s.next, user, p)
    case Leaving(user, seen) => forall p :: p in s.counts ==> !Misread(s, user, seen, p)
  }

  ghost predicate Calm(w: Traffic) {
    && Sound(w) && Exact(w.tables)
    && (forall t :: t in w.open ==> Current(w.tables, w.open[t]) && OldPainting(w.tables, w.open[t]))
    && (forall t, u :: t in w.open && u in w.open && Clash(w.open[t], w.open[u]) ==> t == u)
  }

  predicate OldPainting(s: Likes, request: Request) {
    match request
    case Toggling(_, p, _, _) => p < s.nextPainting
    case Leaving(_, seen) => forall i :: 0 <= i < |seen| ==> seen[i].paintingId < s.nextPainting
  }

  lemma CurrentIsNotStale(s: Likes, request: Request)
    requires Current(s, request)
    ensures !Stale(s, request)
  {
  }

  // A write that does not touch a user's like of a painting leaves it alone.
  lemma OthersDoNotInterfere(s: Likes, request: Request, user: int, p: int)
    requires Keyed(s) && Honest(s, request) && !Touches(request, user, p)
    ensures var after := Write(s, request);
            p in after.counts ==>
              p in s.counts && Find(after.rows, after.next, user, p) == Find(s.rows, s.next, user, p)
  {
    var after := Write(s, request);
    WriteKeeps(s, request, request);
    TheirRow(s, user, p);
    TheirRow(after, user, p);
    var mine := Find(s.rows, s.next, user, p);
    if mine.Some? {
      assert mine.value in after.rows && IsFor(after.rows[mine.value], user, p);
    }
  }

  lemma CurrentSurvives(s: Likes, request: Request, other: Request)
    requires Keyed(s) && Honest(s, request) && !Clash(request, other) && Current(s, other)
    ensures Current(Write(s, request), other)
  {
    hide Keyed, Find, WriteToggle, WriteDelete, Times;
    match other {
      case Toggling(user, p, _, _) => OthersDoNotInterfere(s, request, user, p);
      case Leaving(user, seen) =>
        forall p | p in Write(s, request).counts ensures !Misread(Write(s, request), user, seen, p) {
          OthersDoNotInterfere(s, request, user, p);
        }
    }
  }

  lemma {:induction false} NeverThere(seen: seq<Like>, p: int)
    requires forall i :: 0 <= i < |seen| ==> seen[i].paintingId != p
    ensures Times(seen, p) == 0
  {
    if seen != [] {
      NeverThere(seen[..|seen| - 1], p);
    }
  }

  // Paintings coming and going touch no like of a painting that is there.
  lemma CurrentThroughCatalogue(s: Likes, request: Request, p: int)
    requires Keyed(s) && Current(s, request) && OldPainting(s, request)
    ensures Current(LikeRules.AddPainting(s), request) && Current(LikeRules.RemovePainting(s, p), request)
  {
    match request {
      case Toggling(user, q, _, _) => SameRows(s, user, q, p);
      case Leaving(user, seen) =>
        forall q | q in LikeRules.AddPainting(s).counts ensures !Misread(LikeRules.AddPainting(s), user, seen, q) {
          SameRows(s, user, q, p);
          if q == s.nextPainting {
            NeverThere(seen, q);
          }
        }
        forall q | q in LikeRules.RemovePainting(s, p).counts
          ensures !Misread(LikeRules.RemovePainting(s, p), user, seen, q)
        {
          SameRows(s, user, q, p);
        }
    }
  }

  lemma SameRows(s: Likes, user: int, q: int, p: int)
    requires Keyed(s)
    ensures Find(LikeRules.AddPainting(s).rows, s.next, user, q) == Find(s.rows, s.next, user, q)
    ensures q != p ==> Find(LikeRules.RemovePainting(s, p).rows, s.next, user, q) == Find(s.rows, s.next, user, q)
    ensures q >= s.nextPainting ==> Find(s.rows, s.next, user, q) == None
  {
    PaintingsKeyed(s, p);
    TheirRow(s, user, q);
    TheirRow(LikeRules.RemovePainting(s, p), user, q);
    var mine := Find(s.rows, s.next, user, q);
    if mine.Some? && q != p {
      assert mine.value in LikeRules.RemovePainting(s, p).rows;
    }
  }

  lemma {:induction false} LikesOfOld(s: Likes, n: nat, user: int)
    requires Keyed(s)
    ensures OldPainting(s, Leaving(user, LikesOf(s.rows, n, user)))
  {
    if n > 0 {
      LikesOfOld(s, n - 1, user);
    }
  }

  lemma FirstReadIsCurrent(s: Likes, user: int, p: int, now: int)
    requires Keyed(s)
    ensures Current(s, Toggling(user, p, now, Find(s.rows, s.next, user, p)))
    ensures Current(s, Leaving(user, LikesOf(s.rows, s.next, user)))
    ensures OldPainting(s, Leaving(user, LikesOf(s.rows, s.next, user)))
    ensures p in s.counts ==> p < s.nextPainting
  {
    forall q ensures !Misread(s, user, LikesOf(s.rows, s.next, user), q) {
      LikesOfOnce(s, s.next, user, q);
    }
    LikesOfOld(s, s.next, user);
  }

  lemma CalmKept(w: Traffic, step: Step)
    requires Calm(w) && WaitsItsTurn(w, step)
    ensures Calm(Apply(w, step))
  {
    hide Keyed, Honest, Current, OldPainting, Find, Write, LikesOf, Exact, LikeRules.AddPainting,
         LikeRules.RemovePainting;
    var s, after := w.tables, Apply(w, step);
    SoundKept(w, step);
    ExactKept(w, step);
    match step {
      case BeginToggle(t, user, p, now) =>
        FirstReadIsCurrent(s, user, p, now);
        OldPaintingIs(s, user, p, now);
      case BeginDelete(t, user) =>
        FirstReadIsCurrent(s, user, 0, 0);
      case Finish(t) =>
        if t in w.open {
          CurrentIsNotStale(s, w.open[t]);
          forall u | u in after.open
            ensures Current(after.tables, after.open[u]) && OldPainting(after.tables, after.open[u])
          {
            CurrentSurvives(s, w.open[t], w.open[u]);
            OldStaysOld(s, w.open[t], w.open[u]);
          }
        }
      case GiveUp(t) =>
      case SignUp(user) =>
        forall u | u in w.open
          ensures Current(after.tables, w.open[u]) && OldPainting(after.tables, w.open[u])
        {
          SignUpChangesNoLike(s, user, w.open[u]);
        }
      case AddPainting => CatalogueCalm(w, 0);
      case RemovePainting(p) => CatalogueCalm(w, p);
    }
  }

  lemma CatalogueCalm(w: Traffic, p: int)
    requires Calm(w)
    ensures forall u :: u in w.open ==>
              && Current(LikeRules.AddPainting(w.tables), w.open[u])
              && OldPainting(LikeRules.AddPainting(w.tables), w.open[u])
              && Current(LikeRules.RemovePainting(w.tables, p), w.open[u])
              && OldPainting(LikeRules.RemovePainting(w.tables, p), w.open[u])
  {
    hide Keyed, Honest, Current, Find;
    forall u | u in w.open
      ensures && Current(LikeRules.AddPainting(w.tables), w.open[u])
              && OldPainting(LikeRules.AddPainting(w.tables), w.open[u])
              && Current(LikeRules.RemovePainting(w.tables, p), w.open[u])
              && OldPainting(LikeRules.RemovePainting(w.tables, p), w.open[u])
    {
      CurrentThroughCatalogue(w.tables, w.open[u], p);
    }
  }

  lemma OldPaintingIs(s: Likes, user: int, p: int, now: int)
    ensures OldPainting(s, Toggling(user, p, now, Find(s.rows, s.next, user, p))) <==> p < s.nextPainting
  {
  }

  lemma OldStaysOld(s: Likes, request: Request, other: Request)
    requires OldPainting(s, other)
    ensures OldPainting(Write(s, request), other)
  {
  }

  lemma SignUpChangesNoLike(s: Likes, user: int, request: Request)
    requires Current(s, request) && OldPainting(s, request)
    ensures var after := s.(users := s.users + {user});
            Current(after, request) && OldPainting(after, request)
  {
  }

  // While no user toggles one painting twice at once, or anything beside the
  // deletion of their account, every painting's counter is the number of its
  // like rows, at every point of every run.
  lemma {:induction false} AlwaysExact(s: Likes, steps: seq<Step>)
    requires Keyed(s) && Exact(s) && OneAtATime(Traffic(s, map[]), steps)
    ensures Calm(Run(Traffic(s, map[]), steps))
    ensures forall p :: p in Run(Traffic(s, map[]), steps).tables.counts ==>
              Run(Traffic(s, map[]), steps).tables.counts[p] == |IdsOn(Run(Traffic(s, map[]), steps).tables.rows, p)|
  {
    var w := Traffic(s, map[]);
    if steps != [] {
      var before := steps[..|steps| - 1];
      assert forall i :: 0 <= i < |before| ==> before[..i] == steps[..i];
      AlwaysExact(s, before);
      CalmKept(Run(w, before), steps[|steps| - 1]);
    }
    forall p | p in Run(w, steps).tables.counts
      ensures Run(w, steps).tables.counts[p] == |IdsOn(Run(w, steps).tables.rows, p)|
    {
      assert Drift(Run(w, steps).tables, p) == 0;
    }
  }

  // Two clicks on the same heart, both of which find the like: one row goes,
  // the counter goes down twice.
  lemma TwoUnlikesAtOnce(s: Likes, user: int, p: int, t: nat, u: nat)
    requires Keyed(s) && Exact(s) && HasLiked(s, user, p) && t != u
    ensures var after := Run(Traffic(s, map[]),
                             [BeginToggle(t, user, p, 0), BeginToggle(u, user, p, 0), Finish(t), Finish(u)]).tables;
            Drift(after, p) == -1 && forall q :: q != p ==> Drift(after, q) == 0
  {
    var steps := [BeginToggle(t, user, p, 0), BeginToggle(u, user, p, 0), Finish(t), Finish(u)];
    var found := Find(s.rows, s.next, user, p);
    var request := Toggling(user, p, 0, found);
    var once := Write(s, request);
    RunIs(s, steps, request, t, u);
    WriteKeeps(s, request, request);
    forall q ensures Drift(Write(once, request), q) == if q == p then -1 else 0 {
      assert Drift(s, q) == 0;
      SlipIsExact(s, request, q);
      SlipIsExact(once, request, q);
    }
  }

  lemma RunIs(s: Likes, steps: seq<Step>, request: Request, t: nat, u: nat)
    requires Keyed(s) && request.Toggling? && HasLiked(s, request.user, request.p) && t != u
    requires request.found == Find(s.rows, s.next, request.user, request.p)
    requires steps == [BeginToggle(t, request.user, request.p, request.now),
                       BeginToggle(u, request.user, request.p, request.now), Finish(t), Finish(u)]
    ensures Run(Traffic(s, map[]), steps).tables == Write(Write(s, request), request)
  {
    hide Find, Write;
    var w := Traffic(s, map[]);
    assert request.p in s.counts;
    assert steps[..3][..2][..1][..0] == [];
    assert Run(w, steps[..3][..2][..1]) == Traffic(s, map[t := request]);
    assert Run(w, steps[..3][..2]) == Traffic(s, map[t := request, u := request]);
    assert Run(w, steps[..3]) == Traffic(Write(s, request), map[u := request]);
  }
}

/** The two services, one request at a time. */
module LikeServices {
  import opened Wrappers
  import opened Entities
  import opened LikeRules
  import opened Tables
  import M = ShopMachine

  class LikeTables {
    var likes: Likes

    constructor (likes: Likes)
      ensures this.likes == likes
    {
      this.likes := likes;
    }
  }

  class LikesService {
    const db: LikeTables

    constructor (db: LikeTables)
      ensures this.db == db
    {
      this.db := db;
    }

    // Answers whether the painting is now liked, and its counter.
    method ToggleLike(userId: int, paintingId: int, now: int) returns (answer: Result<(bool, int), Rejection>)
      requires Keyed(db.likes)
      modifies db
      ensures match Toggle(old(db.likes), userId, paintingId, now)
              case Err(e) => answer == Err(e) && db.likes == old(db.likes)
              case Ok(after) =>
                && db.likes == after
                && answer == Ok((HasLiked(after, userId, paintingId), after.counts[paintingId]))
    {
      if paintingId !in db.likes.counts {
        return Err(NotFound);
      }
      ghost var before := db.likes;
      var s := db.likes;
      var existing := Find(s.rows, s.next, userId, paintingId);
      if existing.Some? {
        s := s.(rows := s.rows - {existing.value});
        s := s.(counts := s.counts[paintingId := s.counts[paintingId] - 1]);
      } else {
        if userId !in s.users {
          return Err(UnknownUser);
        }
        s := s.(rows := s.rows[s.next := Like(userId, paintingId, now)], next := s.next + 1);
        s := s.(counts := s.counts[paintingId := s.counts[paintingId] + 1]);
      }
      db.likes := s;
      ToggleOnce(before, userId, paintingId, now);
      return Ok((existing.None?, s.counts[paintingId]));
    }

    // The user's liked paintings, latest first; `likes` is the database's
    // answer to the query for the user's rows. A like whose painting is not
    // found is passed over.
    method GetMyLikedPaintings(userId: int, likes: seq<Like>, paintings: map<int, Painting>) returns (liked: seq<int>)
      requires Keyed(db.likes)
      requires multiset(likes) == multiset(LikesOf(db.likes.rows, db.likes.next, userId))
      requires forall i, j :: 0 <= i < j < |likes| ==> likes[i].createdAt >= likes[j].createdAt
      ensures forall p :: p in liked <==> HasLiked(db.likes, userId, p) && p in paintings
      ensures forall i, j :: 0 <= i < j < |liked| ==> liked[i] != liked[j]
      ensures forall i, j :: 0 <= i < j < |liked| ==>
                LikedAt(db.likes, userId, liked[i]) >= LikedAt(db.likes, userId, liked[j])
    {
      hide LikesOf, LikedAt, Find, Keyed;
      liked := [];
      AnswerIs(db.likes, userId, likes);
      ghost var kept: seq<nat> := [];
      for i := 0 to |likes|
        invariant |kept| == |liked| && forall k :: 0 <= k < |kept| ==>
                    kept[k] < i && liked[k] == likes[kept[k]].paintingId
        invariant forall a, b :: 0 <= a < b < |kept| ==> kept[a] < kept[b]
        invariant forall p :: p in liked <==> p in paintings && exists k :: 0 <= k < i && likes[k].paintingId == p
      {
        if likes[i].paintingId in paintings {
          liked := liked + [likes[i].paintingId];
          kept := kept + [i];
        }
      }
    }
  }

  // When a user liked a painting.
  function LikedAt(s: Likes, user: int, p: int): int {
    match Find(s.rows, s.next, user, p)
    case Some(id) => s.rows[id].createdAt
    case None => 0
  }

  lemma {:induction false} LikesOfAre(s: Likes, n: nat, user: int)
    requires Keyed(s)
    ensures forall like :: like in LikesOf(s.rows, n, user) <==>
              exists id :: id < n && id in s.rows && s.rows[id] == like && like.userId == user
  {
    if n > 0 {
      LikesOfAre(s, n - 1, user);
    }
  }

  lemma {:induction false} TimesIs(likes: seq<Like>, p: int)
    ensures Times(likes, p) >= 1 <==> exists i :: 0 <= i < |likes| && likes[i].paintingId == p
    ensures Times(likes, p) <= 1 ==> forall i, j :: 0 <= i < j < |likes| ==>
              likes[i].paintingId != p || likes[j].paintingId != p
  {
    if likes != [] {
      TimesIs(likes[..|likes| - 1], p);
    }
  }

  lemma {:induction false} TimesRearranged(a: seq<Like>, b: seq<Like>, p: int)
    requires multiset(a) == multiset(b)
    ensures Times(a, p) == Times(b, p)
    decreases |a|
  {
    if a == [] {
      assert |multiset(b)| == |b|;
    } else {
      var last := a[|a| - 1];
      assert last in multiset(b);
      var k :| 0 <= k < |b| && b[k] == last;
      WithoutOne(a, |a| - 1);
      WithoutOne(b, k);
      assert a[..|a| - 1] + a[|a|..] == a[..|a| - 1];
      TimesRearranged(a[..|a| - 1], b[..k] + b[k + 1..], p);
      TimesWithout(b, k, p);
    }
  }

  lemma WithoutOne(a: seq<Like>, k: nat)
    requires k < |a|
    ensures multiset(a[..k] + a[k + 1..]) == multiset(a) - multiset{a[k]}
  {
    assert a == a[..k] + [a[k]] + a[k + 1..];
  }

  lemma TimesWithout(a: seq<Like>, k: nat, p: int)
    requires k < |a|
    ensures Times(a, p) == Times(a[..k] + a[k + 1..], p) + if a[k].paintingId == p then 1 else 0
  {
    assert a == a[..k] + ([a[k]] + a[k + 1..]);
    assert [a[k]][..0] == [];
    TimesSplit(a[..k], [a[k]] + a[k + 1..], p);
    TimesSplit([a[k]], a[k + 1..], p);
    TimesSplit(a[..k], a[k + 1..], p);
  }

  lemma {:induction false} TimesSplit(a: seq<Like>, b: seq<Like>, p: int)
    ensures Times(a + b, p) == Times(a, p) + Times(b, p)
  {
    if b == [] {
      assert a + b == a;
    } else {
      assert (a + b)[..|a + b| - 1] == a + b[..|b| - 1];
      TimesSplit(a, b[..|b| - 1], p);
    }
  }

  lemma AnswerIs(s: Likes, user: int, likes: seq<Like>)
    requires Keyed(s) && multiset(likes) == multiset(LikesOf(s.rows, s.next, user))
    ensures forall like :: like in likes ==> like.createdAt == LikedAt(s, user, like.paintingId)
    ensures forall p :: HasLiked(s, user, p) <==> exists i :: 0 <= i < |likes| && likes[i].paintingId == p
    ensures forall i, j :: 0 <= i < j < |likes| ==> likes[i].paintingId != likes[j].paintingId
  {
    LikesOfAre(s, s.next, user);
    forall p ensures Times(likes, p) == if HasLiked(s, user, p) then 1 else 0 {
      TimesRearranged(likes, LikesOf(s.rows, s.next, user), p);
      LikesOfOnce(s, s.next, user, p);
    }
    forall p ensures HasLiked(s, user, p) <==> exists i :: 0 <= i < |likes| && likes[i].paintingId == p {
      TimesIs(likes, p);
    }
    forall i, j | 0 <= i < j < |likes| ensures likes[i].paintingId != likes[j].paintingId {
      TimesIs(likes, likes[i].paintingId);
    }
    forall like | like in likes ensures like.createdAt == LikedAt(s, user, like.paintingId) {
      assert like in multiset(LikesOf(s.rows, s.next, user));
      var id :| id < s.next && id in s.rows && s.rows[id] == like && like.userId == user;
      TheirRow(s, user, like.paintingId);
      assert IsFor(s.rows[id], user, like.paintingId);
    }
  }

  class UsersService {
    const db: Database
    const likes: LikeTables

    constructor (db: Database, likes: LikeTables)
      ensures this.db == db && this.likes == likes
    {
      this.db := db;
      this.likes := likes;
    }

    // Orders are kept without their owner; likes are taken off the counters
    // one by one before the rows go; the cart goes. `seen` is the database's
    // answer to the query for the user's likes.
    method Remove(id: int, requesterId: int, seen: seq<Like>) returns (error: Option<Rejection>)
      requires multiset(seen) == multiset(LikesOf(likes.likes.rows, likes.likes.next, id))
      modifies db, likes
      ensures id == requesterId ==> error == Some(OwnAccount)
      ensures id != requesterId && id !in old(likes.likes).users ==> error == Some(NotFound)
      ensures error.Some? ==> db.shop == old(db.shop) && likes.likes == old(likes.likes)
      ensures error.None? ==> id != requesterId && db.shop == M.WithoutUser(old(db.shop), id)
      ensures error.None? ==> likes.likes == DeleteUser(old(likes.likes), id)
      // An account there is, not one's own, goes; nothing names it afterwards.
      ensures error.None? <==> id in old(likes.likes).users && id != requesterId
      ensures error.None? ==> id !in likes.likes.users
      ensures error.None? ==> forall k :: k in db.shop.orders ==> db.shop.orders[k].owner != Some(User(id))
      ensures error.None? ==> db.shop.orders.Keys == old(db.shop).orders.Keys
      ensures error.None? ==> forall p :: InCart(db.shop, User(id), p) == None
      ensures error.None? ==> forall k :: k in likes.likes.rows ==> likes.likes.rows[k].userId != id
    {
      if id == requesterId {
        return Some(OwnAccount);
      }
      if id !in likes.likes.users {
        return Some(NotFound);
      }
      var s := likes.likes;
      var shop := db.shop;
      shop := shop.(orders := M.O.Reowned(shop.orders, User(id), None));
      for i := 0 to |seen|
        invariant s == likes.likes.(counts := Decremented(likes.likes.counts, seen[..i]))
      {
        assert seen[..i + 1][..i] == seen[..i];
        if seen[i].paintingId in s.counts {
          s := s.(counts := s.counts[seen[i].paintingId := s.counts[seen[i].paintingId] - 1]);
        }
      }
      assert seen[..|seen|] == seen;
      SameDecrements(s.counts, likes.likes.counts, seen, LikesOf(likes.likes.rows, likes.likes.next, id));
      s := s.(rows := map k | k in s.rows && s.rows[k].userId != id :: s.rows[k]);
      shop := shop.(cart := WithoutCartOf(shop.cart, User(id)));
      s := s.(users := s.users - {id});
      likes.likes := s;
      db.shop := shop;
      return None;
    }
  }

  lemma SameDecrements(result: map<int, int>, counts: map<int, int>, a: seq<Like>, b: seq<Like>)
    requires multiset(a) == multiset(b) && result == Decremented(counts, a)
    ensures result == Decremented(counts, b)
  {
    forall p ensures Times(a, p) == Times(b, p) {
      TimesRearranged(a, b, p);
    }
  }
}
