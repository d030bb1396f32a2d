/** "Set a new password" links: at most one per account, good for one use. */
module PasswordLinks {
  const RESET_TTL_MS := 60 * 60 * 1000

  // A row of password_resets. Its token is fresh random bytes of which only a
  // hash is kept; the row's id stands for both.
  datatype Link = Link(userId: int, expiresAt: int, used: bool)

  // A request between two of its statements: old links deleted and the new
  // one not yet saved; link checked and the password not yet written; password
  // written and the link not yet marked. A request that dies stays where it is.
  datatype Call = Asking(userId: int) | Using(id: nat) | Unmarked(id: nat) | Done

  // `spent` and `replaced` are history: the links that changed a password, in
  // order, and those a newer request deleted.
  datatype Desk = Desk(links: map<nat, Link>, next: nat, now: int, calls: seq<Call>, spent: seq<nat>,
                       replaced: set<nat>)

  datatype Label = Tick(to: int) | Ask(userId: int) | Save(c: nat) | Click(id: nat) | Change(c: nat) | Mark(c: nat)

  predicate Live(links: map<nat, Link>, id: nat, now: int) {
    id in links && !links[id].used && links[id].expiresAt > now
  }

  function WithoutLinksOf(links: map<nat, Link>, userId: int): map<nat, Link> {
    map id | id in links && links[id].userId != userId :: links[id]
  }

  function MarkUsed(links: map<nat, Link>, id: nat): map<nat, Link> {
    if id in links then links[id := links[id].(used := true)] else links
  }

  function LinksOf(links: map<nat, Link>, userId: int): set<nat> {
    set id | id in links && links[id].userId == userId
  }

  predicate Enabled(d: Desk, l: Label) {
    match l
    case Tick(to) => d.now <= to
    case Ask(_) => true
    case Save(c) => c < |d.calls| && d.calls[c].Asking?
    case Click(_) => true
    case Change(c) => c < |d.calls| && d.calls[c].Using?
    case Mark(c) => c < |d.calls| && d.calls[c].Unmarked?
  }

  function Step(d: Desk, l: Label): Desk
    requires Enabled(d, l)
  {
    match l
    case Tick(to) => d.(now := to)
    case Ask(userId) =>
      d.(links := WithoutLinksOf(d.links, userId), replaced := d.replaced + LinksOf(d.links, userId),
         calls := d.calls + [Asking(userId)])
    case Save(c) =>
      d.(links := d.links[d.next := Link(d.calls[c].userId, d.now + RESET_TTL_MS, false)],
         next := d.next + 1, calls := d.calls[c := Done])
    case Click(id) => if Live(d.links, id, d.now) then d.(calls := d.calls + [Using(id)]) else d
    case Change(c) => d.(spent := d.spent + [d.calls[c].id], calls := d.calls[c := Unmarked(d.calls[c].id)])
    case Mark(c) => d.(links := MarkUsed(d.links, d.calls[c].id), calls := d.calls[c := Done])
  }

  predicate CanRun(d: Desk, ls: seq<Label>)
    decreases |ls|
  {
    ls == [] || (Enabled(d, ls[0]) && CanRun(Step(d, ls[0]), ls[1..]))
  }

  function After(d: Desk, ls: seq<Label>): Desk
    requires CanRun(d, ls)
    decreases |ls|
  {
    if ls == [] then d else After(Step(d, ls[0]), ls[1..])
  }

  // ---- whatever comes between ----

  // A link that changed a password is marked, or deleted, or its request has
  // not got to the mark; a link that is not in the table was replaced.
  ghost predicate Sound(d: Desk) {
    && (forall id: nat :: id in d.links ==> id < d.next && id !in d.replaced && (d.links[id].used ==> id in d.spent))
    && (forall id: nat :: id < d.next && id !in d.links ==> id in d.replaced)
    && (forall id: nat :: id in d.replaced ==> id < d.next)
    && (forall id: nat :: Using(id) in d.calls || Unmarked(id) in d.calls ==> id < d.next)
    && (forall id: nat :: Unmarked(id) in d.calls ==> id in d.spent)
    && (forall id: nat :: id in d.spent ==>
         id < d.next && (Unmarked(id) in d.calls || id !in d.links || d.links[id].used))
  }

  function Start(now: int): Desk {
    Desk(map[], 0, now, [], [], {})
  }

  // Deleted, or marked.
  predicate Dead(d: Desk, id: nat) {
    id < d.next && (id in d.links ==> d.links[id].used)
  }

  lemma CallsAfter(calls: seq<Call>, c: nat, call: Call)
    requires c < |calls|
    ensures forall k :: k in calls[c := call] ==> k == call || k in calls
    ensures call in calls[c := call]
    ensures forall k :: k in calls && k != calls[c] ==> k in calls[c := call]
  {
    var after := calls[c := call];
    assert after[c] == call;
    forall k | k in calls && k != calls[c] ensures k in after {
      var i :| 0 <= i < |calls| && calls[i] == k;
      assert after[i] == k;
    }
  }

  lemma StepKeepsSound(d: Desk, l: Label)
    requires Sound(d) && Enabled(d, l)
    ensures Sound(Step(d, l))
    ensures forall id :: Dead(d, id) ==> Dead(Step(d, l), id)
  {
    match l {
      case Save(c) => CallsAfter(d.calls, c, Done);
      case Change(c) => CallsAfter(d.calls, c, Unmarked(d.calls[c].id));
      case Mark(c) => CallsAfter(d.calls, c, Done);
      case _ =>
    }
  }

  // From the moment a link is marked, or replaced by a newer one, every click
  // on it is refused, however the run goes on.
  lemma {:induction false} DeadForGood(d: Desk, ls: seq<Label>, id: nat)
    requires Sound(d) && CanRun(d, ls) && Dead(d, id)
    ensures Sound(After(d, ls)) && !Live(After(d, ls).links, id, After(d, ls).now)
    ensures Enabled(After(d, ls), Click(id)) && Step(After(d, ls), Click(id)) == After(d, ls)
  {
    DeadStays(d, ls, id);
  }

  lemma {:induction false} DeadStays(d: Desk, ls: seq<Label>, id: nat)
    requires Sound(d) && CanRun(d, ls)
    ensures Sound(After(d, ls)) && (Dead(d, id) ==> Dead(After(d, ls), id))
    decreases |ls|
  {
    if ls != [] {
      StepKeepsSound(d, ls[0]);
      DeadStays(Step(d, ls[0]), ls[1..], id);
    }
  }

  // ---- what the promise needs ----

  // A click passes on a link that has already changed a password exactly when
  // that change has not been marked yet (or never will be).
  lemma ClickPassesAfterChange(d: Desk, id: nat)
    requires Sound(d) && Live(d.links, id, d.now)
    ensures id in d.spent <==> Unmarked(id) in d.calls
  {
  }

  // "One live link at a time", good for one use: a password write keeps this
  // exactly when its link is still in the table, unmarked, and no earlier
  // change by it is waiting for its mark. The code looks at none of the three.
  lemma ChangeIsProper(d: Desk, c: nat)
    requires Sound(d) && Enabled(d, Change(c))
    ensures var id := d.calls[c].id;
            id !in d.spent && id !in d.replaced <==> id in d.links && !d.links[id].used && Unmarked(id) !in d.calls
  {
    assert d.calls[c] in d.calls;
  }

  ghost predicate OneEach(d: Desk) {
    forall a, b :: a in d.links && b in d.links && d.links[a].userId == d.links[b].userId ==> a == b
  }

  // An account gets a second link just when another request saved one of its
  // own between this one's delete and insert.
  lemma OneEachKept(d: Desk, l: Label)
    requires Sound(d) && OneEach(d) && Enabled(d, l)
    ensures OneEach(Step(d, l)) <==>
              !(l.Save? && exists id :: id in d.links && d.links[id].userId == d.calls[l.c].userId)
  {
    var after := Step(d, l);
    if l.Save? {
      assert after.links[d.next].userId == d.calls[l.c].userId;
      forall id | id in d.links ensures id in after.links && after.links[id] == d.links[id] && id != d.next {
      }
    }
  }

  // ---- requests that do not overlap ----

  ghost predicate SpentOnce(d: Desk) {
    forall i, j :: 0 <= i < j < |d.spent| ==> d.spent[i] != d.spent[j]
  }

  // A link is clicked again only once the request that used it has marked it,
  // and an account asks again only once its last link has been saved.
  predicate WaitsItsTurn(d: Desk, l: Label) {
    match l
    case Click(id) => Using(id) !in d.calls && Unmarked(id) !in d.calls
    case Ask(userId) => Asking(userId) !in d.calls
    case _ => true
  }

  ghost predicate ClicksWait(d: Desk, ls: seq<Label>)
    requires CanRun(d, ls)
    decreases |ls|
  {
    ls == [] || ((ls[0].Click? ==> WaitsItsTurn(d, ls[0])) && ClicksWait(Step(d, ls[0]), ls[1..]))
  }

  ghost predicate AsksWait(d: Desk, ls: seq<Label>)
    requires CanRun(d, ls)
    decreases |ls|
  {
    ls == [] || ((ls[0].Ask? ==> WaitsItsTurn(d, ls[0])) && AsksWait(Step(d, ls[0]), ls[1..]))
  }

  ghost predicate ClicksCalm(d: Desk) {
    && SpentOnce(d)
    && (forall a, b :: 0 <= a < b < |d.calls| && d.calls[a].Using? && d.calls[b].Using? ==> d.calls[a] != d.calls[b])
    && (forall c :: 0 <= c < |d.calls| && d.calls[c].Using? ==> d.calls[c].id !in d.spent)
  }

  lemma ClicksCalmKept(d: Desk, l: Label)
    requires Sound(d) && ClicksCalm(d) && Enabled(d, l) && (l.Click? ==> WaitsItsTurn(d, l))
    ensures ClicksCalm(Step(d, l))
  {
    if l.Click? {
      assert Live(d.links, l.id, d.now) ==> l.id !in d.spent;
    }
  }

  // Then no link ever changes a password twice ...
  lemma {:induction false} EachLinkOnce(d: Desk, ls: seq<Label>)
    requires Sound(d) && ClicksCalm(d) && CanRun(d, ls) && ClicksWait(d, ls)
    ensures ClicksCalm(After(d, ls)) && SpentOnce(After(d, ls))
    decreases |ls|
  {
    if ls != [] {
      StepKeepsSound(d, ls[0]);
      ClicksCalmKept(d, ls[0]);
      EachLinkOnce(Step(d, ls[0]), ls[1..]);
    }
  }

  ghost predicate AsksCalm(d: Desk) {
    && OneEach(d)
    && (forall a, b :: 0 <= a < b < |d.calls| && d.calls[a].Asking? && d.calls[b].Asking? ==> d.calls[a] != d.calls[b])
    && (forall c, id :: 0 <= c < |d.calls| && d.calls[c].Asking? && id in d.links ==>
         d.links[id].userId != d.calls[c].userId)
  }

  lemma AsksCalmKept(d: Desk, l: Label)
    requires Sound(d) && AsksCalm(d) && Enabled(d, l) && (l.Ask? ==> WaitsItsTurn(d, l))
    ensures AsksCalm(Step(d, l))
  {
    OneEachKept(d, l);
  }

  // ... and no account ever has two links.
  lemma {:induction false} OneLinkEach(d: Desk, ls: seq<Label>)
    requires Sound(d) && AsksCalm(d) && CanRun(d, ls) && AsksWait(d, ls)
    ensures AsksCalm(After(d, ls)) && OneEach(After(d, ls))
    decreases |ls|
  {
    if ls != [] {
      StepKeepsSound(d, ls[0]);
      AsksCalmKept(d, ls[0]);
      OneLinkEach(Step(d, ls[0]), ls[1..]);
    }
  }

  // ---- and when they do ----

  // One link in the table, nobody at work on it.
  ghost predicate FreshLink(d: Desk, id: nat) {
    Sound(d) && Live(d.links, id, d.now) && id !in d.spent && d.calls == []
  }

  lemma FourSteps(d: Desk, ls: seq<Label>)
    requires |ls| == 4 && Enabled(d, ls[0])
    requires var d1 := Step(d, ls[0]);
             Enabled(d1, ls[1]) && Enabled(Step(d1, ls[1]), ls[2]) && Enabled(Step(Step(d1, ls[1]), ls[2]), ls[3])
    ensures CanRun(d, ls) && After(d, ls) == Step(Step(Step(Step(d, ls[0]), ls[1]), ls[2]), ls[3])
  {
    var d1 := Step(d, ls[0]);
    var d2 := Step(d1, ls[1]);
    var d3 := Step(d2, ls[2]);
    var d4 := Step(d3, ls[3]);
    assert ls[1..][1..][1..][1..] == [];
    assert CanRun(d4, []) && After(d4, []) == d4;
    assert ls[1..][1..][1..][0] == ls[3] && ls[1..][1..][0] == ls[2] && ls[1..][0] == ls[1];
    assert CanRun(d3, ls[1..][1..][1..]) && After(d3, ls[1..][1..][1..]) == d4;
    assert CanRun(d2, ls[1..][1..]) && After(d2, ls[1..][1..]) == d4;
    assert CanRun(d1, ls[1..]) && After(d1, ls[1..]) == d4;
  }

  // Two clicks that both pass the check; a second click before the first has
  // marked the link; a click that outlives its link's replacement.
  lemma UsedTwice(d: Desk, id: nat)
    requires FreshLink(d, id)
    ensures CanRun(d, [Click(id), Click(id), Change(0), Change(1)])
    ensures CanRun(d, [Click(id), Change(0), Click(id), Change(1)])
    ensures After(d, [Click(id), Click(id), Change(0), Change(1)]).spent == d.spent + [id, id]
    ensures After(d, [Click(id), Change(0), Click(id), Change(1)]).spent == d.spent + [id, id]
  {
    FourSteps(d, [Click(id), Click(id), Change(0), Change(1)]);
    FourSteps(d, [Click(id), Change(0), Click(id), Change(1)]);
  }

  lemma ReplacedStillChanges(d: Desk, id: nat)
    requires FreshLink(d, id)
    ensures var ls := [Click(id), Ask(d.links[id].userId), Save(1), Change(0)];
            CanRun(d, ls) && id in After(d, ls).replaced && After(d, ls).spent == d.spent + [id]
  {
    FourSteps(d, [Click(id), Ask(d.links[id].userId), Save(1), Change(0)]);
  }

  function AskTwice(userId: int): seq<Label> {
    [Ask(userId), Ask(userId), Save(0), Save(1)]
  }

  // Two requests for one account, both past the delete: two live links.
  lemma TwoLinks(d: Desk, userId: int)
    requires Sound(d) && d.calls == []
    ensures CanRun(d, AskTwice(userId))
    ensures HasLinks(After(d, AskTwice(userId)), userId, d.next, d.next + 1)
  {
    hide Step, Sound, CanRun, After, HasLinks;
    BothDeleted(d, userId);
    TwoSaves(Step(Step(d, Ask(userId)), Ask(userId)), userId);
    FourSteps(d, AskTwice(userId));
  }

  predicate HasLinks(d: Desk, userId: int, a: nat, b: nat) {
    LinksOf(d.links, userId) == {a, b} && Live(d.links, a, d.now) && Live(d.links, b, d.now)
  }

  lemma BothDeleted(d: Desk, userId: int)
    requires Sound(d) && d.calls == []
    ensures var d2 := Step(Step(d, Ask(userId)), Ask(userId));
            && d2.calls == [Asking(userId), Asking(userId)] && LinksOf(d2.links, userId) == {}
            && d2.next == d.next && d2.now == d.now && forall id :: id in d2.links ==> id < d.next
  {
  }

  lemma TwoSaves(d: Desk, userId: int)
    requires d.calls == [Asking(userId), Asking(userId)] && LinksOf(d.links, userId) == {}
    requires forall id :: id in d.links ==> id < d.next
    ensures Enabled(d, Save(0)) && Enabled(Step(d, Save(0)), Save(1))
    ensures HasLinks(Step(Step(d, Save(0)), Save(1)), userId, d.next, d.next + 1)
  {
    var d1 := Step(d, Save(0));
    var after := Step(d1, Save(1));
    assert LinksOf(d1.links, userId) == LinksOf(d.links, userId) + {d.next};
    assert LinksOf(after.links, userId) == LinksOf(d1.links, userId) + {d1.next};
  }

  // ---- from beginning to end with nothing in between ----

  // Asked for, a link is the account's only one, and good for an hour.
  lemma AskingWorks(d: Desk, userId: int, later: int)
    requires Sound(d) && d.now <= later
    ensures var ls := [Ask(userId), Save(|d.calls|), Tick(later)];
            && CanRun(d, ls)
            && var after := After(d, ls);
               && LinksOf(after.links, userId) == {d.next} && after.spent == d.spent && after.now == later
               && (Live(after.links, d.next, after.now) <==> later - d.now < 60 * 60 * 1000)
               && forall id :: id in d.links && d.links[id].userId != userId ==>
                    id in after.links && after.links[id] == d.links[id]
  {
    var w1 := Step(d, Ask(userId));
    var w2 := Step(w1, Save(|d.calls|));
    var w3 := Step(w2, Tick(later));
    assert d.next !in d.links;
    hide Sound, CanRun, After;
    ThreeSteps(d, [Ask(userId), Save(|d.calls|), Tick(later)]);
  }

  // Clicked while it is good, it changes the password once and is good no
  // more; clicked otherwise, it does nothing.
  lemma ClickingWorks(d: Desk, id: nat)
    ensures !Live(d.links, id, d.now) ==> Step(d, Click(id)) == d
    ensures Live(d.links, id, d.now) ==>
              var ls := [Click(id), Change(|d.calls|), Mark(|d.calls|)];
              && CanRun(d, ls)
              && var after := After(d, ls);
                 && after.spent == d.spent + [id] && after.links == d.links[id := d.links[id].(used := true)]
                 && after.calls == d.calls + [Done] && !Live(after.links, id, after.now)
  {
    if Live(d.links, id, d.now) {
      hide CanRun, After;
      ThreeSteps(d, [Click(id), Change(|d.calls|), Mark(|d.calls|)]);
    }
  }

  lemma ThreeSteps(d: Desk, ls: seq<Label>)
    requires |ls| == 3 && Enabled(d, ls[0]) && Enabled(Step(d, ls[0]), ls[1])
    requires Enabled(Step(Step(d, ls[0]), ls[1]), ls[2])
    ensures CanRun(d, ls) && After(d, ls) == Step(Step(Step(d, ls[0]), ls[1]), ls[2])
  {
    hide Enabled, Step;
    var d1 := Step(d, ls[0]);
    var d2 := Step(d1, ls[1]);
    var d3 := Step(d2, ls[2]);
    assert ls[1..][0] == ls[1] && ls[1..][1..] == ls[2..] && ls[2..][0] == ls[2] && ls[2..][1..] == [];
    assert CanRun(d3, []) && After(d3, []) == d3;
    assert CanRun(d2, ls[2..]) && After(d2, ls[2..]) == d3;
    assert CanRun(d1, ls[1..]) && After(d1, ls[1..]) == d3;
  }

  lemma StartIsCalm(now: int)
    ensures Sound(Start(now)) && ClicksCalm(Start(now)) && AsksCalm(Start(now))
  {
  }
}
