/** The message counter for support sockets: two fixed windows, per socket and
    per address, and a sweeper. First one store on its own. */
module RateWindows {
  datatype Window = Window(count: nat, resetAt: int)

  datatype Rule = Rule(windowMs: int, limit: nat)

  type Store = map<string, Window>

  // What can happen to one store.
  datatype Op = Use(key: string, at: int) | Forget(key: string, at: int) | Sweep(at: int) | Idle(at: int)

  predicate Starts(store: Store, key: string, now: int) {
    key !in store || store[key].resetAt <= now
  }

  function Consumed(store: Store, key: string, rule: Rule, now: int): Store {
    if Starts(store, key, now) then store[key := Window(1, now + rule.windowMs)]
    else store[key := store[key].(count := store[key].count + 1)]
  }

  predicate Allows(store: Store, key: string, rule: Rule, now: int) {
    Starts(store, key, now) || store[key].count + 1 <= rule.limit
  }

  function Swept(store: Store, now: int): Store {
    map key | key in store && store[key].resetAt > now :: store[key]
  }

  function Apply(store: Store, rule: Rule, op: Op): Store {
    match op
    case Use(key, at) => Consumed(store, key, rule, at)
    case Forget(key, _) => store - {key}
    case Sweep(at) => Swept(store, at)
    case Idle(_) => store
  }

  // The store after a run from empty.
  function After(rule: Rule, ops: seq<Op>): Store {
    if ops == [] then map[] else Apply(After(rule, ops[..|ops| - 1]), rule, ops[|ops| - 1])
  }

  ghost predicate ClockNeverRunsBack(ops: seq<Op>) {
    forall i, j :: 0 <= i < j < |ops| ==> ops[i].at <= ops[j].at
  }

  // A key that has been forgotten is not used again.
  ghost predicate NotReused(ops: seq<Op>, key: string) {
    forall i, j :: 0 <= i < j < |ops| && ops[i].Forget? && ops[i].key == key ==> !(ops[j].Use? && ops[j].key == key)
  }

  ghost predicate Forgotten(ops: seq<Op>, key: string) {
    exists i :: 0 <= i < |ops| && ops[i].Forget? && ops[i].key == key
  }

  // ---- what is granted ----

  predicate GrantedLast(rule: Rule, ops: seq<Op>, key: string)
    requires ops != []
  {
    var last := ops[|ops| - 1];
    last.Use? && last.key == key && Allows(After(rule, ops[..|ops| - 1]), key, rule, last.at)
  }

  // Grants to a key at or after a moment ...
  function GrantsFrom(rule: Rule, ops: seq<Op>, key: string, lo: int): nat {
    if ops == [] then 0
    else GrantsFrom(rule, ops[..|ops| - 1], key, lo)
         + if GrantedLast(rule, ops, key) && lo <= ops[|ops| - 1].at then 1 else 0
  }

  // ... and between two, both included.
  function GrantsIn(rule: Rule, ops: seq<Op>, key: string, lo: int, hi: int): nat {
    if ops == [] then 0
    else GrantsIn(rule, ops[..|ops| - 1], key, lo, hi)
         + if GrantedLast(rule, ops, key) && lo <= ops[|ops| - 1].at <= hi then 1 else 0
  }

  // ---- the window a key is in, told without the store ----

  // When the key's latest window opened, and how often it was used since.
  datatype Opened = Never | Opened(start: int, uses: nat)

  function LatestWindow(rule: Rule, ops: seq<Op>, key: string): Opened {
    if ops == [] then Never
    else
      var before := LatestWindow(rule, ops[..|ops| - 1], key);
      var last := ops[|ops| - 1];
      if !(last.Use? && last.key == key) then before
      else if before.Never? || before.start + rule.windowMs <= last.at then Opened(last.at, 1)
      else Opened(before.start, before.uses + 1)
  }

  // The store is a cache of that: it may have dropped a window, but only one
  // that is over. So no sweep can change an answer.
  lemma {:induction false} StoreFollows(rule: Rule, ops: seq<Op>, key: string)
    requires rule.windowMs > 0 && ClockNeverRunsBack(ops) && NotReused(ops, key) && !Forgotten(ops, key)
    ensures var store, window := After(rule, ops), LatestWindow(rule, ops, key);
            if key in store then window.Opened? && store[key] == Window(window.uses, window.start + rule.windowMs)
            else window.Opened? ==> ops != [] && window.start + rule.windowMs <= ops[|ops| - 1].at
  {
    if ops != [] {
      var init := ops[..|ops| - 1];
      forall i | 0 <= i < |init| ensures !(init[i].Forget? && init[i].key == key) {
        assert init[i] == ops[i];
      }
      StoreFollows(rule, init, key);
      var last := ops[|ops| - 1];
      if init != [] {
        assert init[|init| - 1].at <= last.at;
      }
      assert last.Forget? ==> last.key != key;
    }
  }

  function Min(a: int, b: int): int {
    if a <= b then a else b
  }

  lemma {:induction false} FewerFromLater(rule: Rule, ops: seq<Op>, key: string, lo: int, hi: int)
    requires lo <= hi
    ensures GrantsFrom(rule, ops, key, hi) <= GrantsFrom(rule, ops, key, lo)
  {
    if ops != [] {
      FewerFromLater(rule, ops[..|ops| - 1], key, lo, hi);
    }
  }

  // No grant lies after the last moment of the run.
  lemma {:induction false} NoneAhead(rule: Rule, ops: seq<Op>, key: string, lo: int)
    requires ClockNeverRunsBack(ops) && (ops == [] || ops[|ops| - 1].at < lo)
    ensures GrantsFrom(rule, ops, key, lo) == 0
  {
    if ops != [] {
      var init := ops[..|ops| - 1];
      if init != [] {
        assert ops[|init| - 1].at <= ops[|ops| - 1].at;
      }
      NoneAhead(rule, init, key, lo);
    }
  }

  // The whole account of a key's grants, window by window: the latest window
  // has granted each of its first `limit` uses, counted from its opening;
  // stepping back one window length reaches at most one window more.
  ghost predicate Account(rule: Rule, ops: seq<Op>, key: string) {
    var window := LatestWindow(rule, ops, key);
    match window
    case Never => forall lo :: GrantsFrom(rule, ops, key, lo) == 0
    case Opened(start, uses) =>
      && uses >= 1 && ops != [] && start <= ops[|ops| - 1].at
      && GrantsFrom(rule, ops, key, start + rule.windowMs) == 0
      && GrantsFrom(rule, ops, key, start) == Min(uses, rule.limit)
      && GrantsFrom(rule, ops, key, start + 1) <= Min(uses, rule.limit) - 1
      && GrantsFrom(rule, ops, key, start - rule.windowMs) <= rule.limit + Min(uses, rule.limit)
      && GrantsFrom(rule, ops, key, start - rule.windowMs + 1) <= rule.limit + Min(uses, rule.limit) - 1
  }

  lemma {:induction false} AccountHolds(rule: Rule, ops: seq<Op>, key: string)
    requires rule.windowMs > 0 && rule.limit >= 1 && ClockNeverRunsBack(ops) && NotReused(ops, key)
    ensures Account(rule, ops, key)
  {
    if ops != [] {
      var init, last := ops[..|ops| - 1], ops[|ops| - 1];
      assert forall i, j :: 0 <= i < j < |init| ==> init[i] == ops[i] && init[j] == ops[j];
      AccountHolds(rule, init, key);
      if init != [] {
        assert ops[|init| - 1].at <= last.at;
      }
      if last.Use? && last.key == key {
        forall i | 0 <= i < |init| ensures !(init[i].Forget? && init[i].key == key) {
          assert init[i] == ops[i];
        }
        StoreFollows(rule, init, key);
        NextUse(rule, ops, key);
      }
    }
  }

  lemma UseUnfolds(rule: Rule, ops: seq<Op>, key: string)
    requires ops != [] && ops[|ops| - 1].Use? && ops[|ops| - 1].key == key
    ensures var init, now := ops[..|ops| - 1], ops[|ops| - 1].at;
            var before := LatestWindow(rule, init, key);
            && LatestWindow(rule, ops, key)
                 == (if before.Never? || before.start + rule.windowMs <= now then Opened(now, 1)
                                                else Opened(before.start, before.uses + 1))
            && forall lo :: GrantsFrom(rule, ops, key, lo)
                            == GrantsFrom(rule, init, key, lo)
                               + if Allows(After(rule, init), key, rule, now) && lo <= now then 1 else 0
  {
  }

  lemma NextUse(rule: Rule, ops: seq<Op>, key: string)
    requires rule.windowMs > 0 && rule.limit >= 1 && ops != [] && ClockNeverRunsBack(ops)
    requires ops[|ops| - 1].Use? && ops[|ops| - 1].key == key
    requires Account(rule, ops[..|ops| - 1], key)
    requires var init := ops[..|ops| - 1];
             var store, window := After(rule, init), LatestWindow(rule, init, key);
             if key in store then window.Opened? && store[key] == Window(window.uses, window.start + rule.windowMs)
             else window.Opened? ==> init != [] && window.start + rule.windowMs <= init[|init| - 1].at
    ensures Account(rule, ops, key)
  {
    var init, last := ops[..|ops| - 1], ops[|ops| - 1];
    var before := LatestWindow(rule, init, key);
    var now := last.at;
    if init != [] {
      assert init[|init| - 1].at <= now;
    }
    UseUnfolds(rule, ops, key);
    hide After, GrantsFrom, LatestWindow, ClockNeverRunsBack, GrantedLast;
    match before {
      case Never =>
      case Opened(start, uses) =>
        if start + rule.windowMs <= now {
          FewerFromLater(rule, init, key, start + rule.windowMs, now);
          FewerFromLater(rule, init, key, start + rule.windowMs, now + 1);
          FewerFromLater(rule, init, key, start + rule.windowMs, now + rule.windowMs);
          FewerFromLater(rule, init, key, start, now - rule.windowMs);
          FewerFromLater(rule, init, key, start + 1, now - rule.windowMs + 1);
        }
    }
  }

  // Between T and T + windowMs, both included, at most 2 * limit; leaving
  // either end out, at most one fewer.
  lemma {:induction false} GrantsBounded(rule: Rule, ops: seq<Op>, key: string, t: int)
    requires rule.windowMs > 0 && rule.limit >= 1 && ClockNeverRunsBack(ops) && NotReused(ops, key)
    ensures GrantsIn(rule, ops, key, t, t + rule.windowMs) <= 2 * rule.limit
    ensures GrantsIn(rule, ops, key, t, t + rule.windowMs - 1) <= 2 * rule.limit - 1
  {
    UpTo(rule, ops, key, t, t + rule.windowMs, 2 * rule.limit);
    UpTo(rule, ops, key, t, t + rule.windowMs - 1, 2 * rule.limit - 1);
  }

  lemma {:induction false} UpTo(rule: Rule, ops: seq<Op>, key: string, lo: int, hi: int, bound: nat)
    requires rule.windowMs > 0 && rule.limit >= 1 && ClockNeverRunsBack(ops) && NotReused(ops, key)
    requires (hi == lo + rule.windowMs && bound == 2 * rule.limit)
             || (hi == lo + rule.windowMs - 1 && bound == 2 * rule.limit - 1)
    ensures GrantsIn(rule, ops, key, lo, hi) <= bound
  {
    if ops != [] {
      var init := ops[..|ops| - 1];
      if hi < ops[|ops| - 1].at {
        assert forall i, j :: 0 <= i < j < |init| ==> init[i] == ops[i] && init[j] == ops[j];
        UpTo(rule, init, key, lo, hi, bound);
      } else {
        AllInside(rule, ops, key, lo, hi);
        AccountHolds(rule, ops, key);
        var window := LatestWindow(rule, ops, key);
        if window.Opened? {
          if hi == lo + rule.windowMs {
            FewerFromLater(rule, ops, key, window.start - rule.windowMs, lo);
          } else {
            FewerFromLater(rule, ops, key, window.start - rule.windowMs + 1, lo);
          }
        }
      }
    }
  }

  lemma {:induction false} AllInside(rule: Rule, ops: seq<Op>, key: string, lo: int, hi: int)
    requires ClockNeverRunsBack(ops) && (ops == [] || ops[|ops| - 1].at <= hi)
    ensures GrantsIn(rule, ops, key, lo, hi) == GrantsFrom(rule, ops, key, lo)
  {
    if ops != [] {
      var init := ops[..|ops| - 1];
      if init != [] {
        assert ops[|init| - 1].at <= ops[|ops| - 1].at;
      }
      AllInside(rule, init, key, lo, hi);
    }
  }

  // ---- the bound is reached ----

  function Times(op: Op, n: nat): seq<Op> {
    if n == 0 then [] else Times(op, n - 1) + [op]
  }

  // While a window is open and has room, every use in it is granted.
  lemma {:induction false} Burst(rule: Rule, ops: seq<Op>, key: string, at: int, n: nat, lo: int, hi: int)
    requires lo <= at <= hi
    requires key in After(rule, ops) && After(rule, ops)[key].resetAt > at
             && After(rule, ops)[key].count + n <= rule.limit
    ensures var all := ops + Times(Use(key, at), n);
            && GrantsIn(rule, all, key, lo, hi) == GrantsIn(rule, ops, key, lo, hi) + n
            && key in After(rule, all)
            && After(rule, all)[key] == Window(After(rule, ops)[key].count + n, After(rule, ops)[key].resetAt)
  {
    hide After, GrantsIn;
    if n == 0 {
      assert ops + [] == ops;
    } else {
      Burst(rule, ops, key, at, n - 1, lo, hi);
      var sofar := ops + Times(Use(key, at), n - 1);
      InsideWindow(rule, sofar, key, at, lo, hi);
      assert ops + Times(Use(key, at), n) == sofar + [Use(key, at)];
    }
  }

  lemma InsideWindow(rule: Rule, ops: seq<Op>, key: string, at: int, lo: int, hi: int)
    requires lo <= at <= hi
    requires key in After(rule, ops) && After(rule, ops)[key].resetAt > at
             && After(rule, ops)[key].count + 1 <= rule.limit
    ensures var all := ops + [Use(key, at)];
            && GrantsIn(rule, all, key, lo, hi) == GrantsIn(rule, ops, key, lo, hi) + 1
            && key in After(rule, all)
            && After(rule, all)[key] == Window(After(rule, ops)[key].count + 1, After(rule, ops)[key].resetAt)
  {
  }

  lemma FirstOfWindow(rule: Rule, ops: seq<Op>, key: string, at: int, lo: int, hi: int)
    requires lo <= at <= hi && Starts(After(rule, ops), key, at)
    ensures GrantsIn(rule, ops + [Use(key, at)], key, lo, hi) == GrantsIn(rule, ops, key, lo, hi) + 1
    ensures After(rule, ops + [Use(key, at)]) == After(rule, ops)[key := Window(1, at + rule.windowMs)]
  {
  }

  // One use to open a window, the rest of its budget at its very end, and a
  // whole budget the moment the next one opens.
  function EdgeRun(rule: Rule, key: string): seq<Op>
    requires rule.limit >= 1
  {
    [Use(key, 0)] + Times(Use(key, rule.windowMs - 1), rule.limit - 1)
    + [Use(key, rule.windowMs)] + Times(Use(key, rule.windowMs), rule.limit - 1)
  }

  lemma BoundIsReached(rule: Rule, key: string)
    requires rule.windowMs > 0 && rule.limit >= 1
    ensures GrantsIn(rule, EdgeRun(rule, key), key, 0, rule.windowMs) == 2 * rule.limit
  {
    hide After, GrantsIn, Times;
    var w, n := rule.windowMs, rule.limit - 1;
    var first := [Use(key, 0)] + Times(Use(key, w - 1), n);
    FirstBudget(rule, key);
    FirstOfWindow(rule, first, key, w, 0, w);
    Burst(rule, first + [Use(key, w)], key, w, n, 0, w);
  }

  lemma FirstBudget(rule: Rule, key: string)
    requires rule.windowMs > 0 && rule.limit >= 1
    ensures var first := [Use(key, 0)] + Times(Use(key, rule.windowMs - 1), rule.limit - 1);
            && GrantsIn(rule, first, key, 0, rule.windowMs) == rule.limit
            && key in After(rule, first) && After(rule, first)[key] == Window(rule.limit, rule.windowMs)
  {
    assert After(rule, []) == map[] && GrantsIn(rule, [], key, 0, rule.windowMs) == 0;
    hide After, GrantsIn, Times;
    assert [] + [Use(key, 0)] == [Use(key, 0)];
    FirstOfWindow(rule, [], key, 0, 0, rule.windowMs);
    Burst(rule, [Use(key, 0)], key, rule.windowMs - 1, rule.limit - 1, 0, rule.windowMs);
  }
}

/** The limiter: both stores, the timer that sweeps them, and what a client
    can get out of it. */
module RateLimit {
  import opened RateWindows

  const PER_SOCKET := Rule(60_000, 20)
  const PER_ADDRESS := Rule(60_000, 60)

  datatype Limiter = Limiter(sockets: Store, addresses: Store)

  datatype Event = Message(socket: string, address: string, at: int) | Release(socket: string, at: int) | Tidy(at: int)

  const EMPTY := Limiter(map[], map[])

  function SocketOp(e: Event): Op {
    match e
    case Message(socket, _, at) => Use(socket, at)
    case Release(socket, at) => Forget(socket, at)
    case Tidy(at) => Sweep(at)
  }

  function AddressOp(e: Event): Op {
    match e
    case Message(_, address, at) => Use(address, at)
    case Release(_, at) => Idle(at)
    case Tidy(at) => Sweep(at)
  }

  function Next(s: Limiter, e: Event): Limiter {
    Limiter(Apply(s.sockets, PER_SOCKET, SocketOp(e)), Apply(s.addresses, PER_ADDRESS, AddressOp(e)))
  }

  predicate Allowed(s: Limiter, e: Event)
    requires e.Message?
  {
    Allows(s.sockets, e.socket, PER_SOCKET, e.at) && Allows(s.addresses, e.address, PER_ADDRESS, e.at)
  }

  class SupportRateLimitService {
    var sockets: Store
    var addresses: Store

    function State(): Limiter
      reads this
    {
      Limiter(sockets, addresses)
    }

    constructor ()
      ensures State() == EMPTY
    {
      sockets, addresses := map[], map[];
    }

    // Both windows are consumed on every call, whatever the first one said.
    method AllowMessage(socketId: string, address: string, now: int) returns (ok: bool)
      modifies this
      ensures ok == Allowed(old(State()), Message(socketId, address, now))
      ensures State() == Next(old(State()), Message(socketId, address, now))
    {
      var socketOk, addressOk;
      sockets, socketOk := Consume(sockets, socketId, PER_SOCKET, now);
      addresses, addressOk := Consume(addresses, address, PER_ADDRESS, now);
      return socketOk && addressOk;
    }

    method Consume(store: Store, key: string, rule: Rule, now: int) returns (after: Store, ok: bool)
      ensures after == Consumed(store, key, rule, now) && ok == Allows(store, key, rule, now)
      // The window stays open, and the answer is what its counter says.
      ensures rule.windowMs > 0 ==> after[key].resetAt > now
      ensures rule.limit >= 1 ==> (ok <==> after[key].count <= rule.limit)
    {
      if key !in store || store[key].resetAt <= now {
        return store[key := Window(1, now + rule.windowMs)], true;
      }
      var existing := store[key];
      existing := existing.(count := existing.count + 1);
      return store[key := existing], existing.count <= rule.limit;
    }

    method ReleaseSocket(socketId: string, now: int)
      modifies this
      ensures State() == Next(old(State()), Release(socketId, now))
      ensures Starts(State().sockets, socketId, now) && State().addresses == old(State()).addresses
    {
      sockets := sockets - {socketId};
    }

    method SweepBoth(now: int)
      modifies this
      ensures State() == Next(old(State()), Tidy(now))
    {
      sockets := SweepStore(sockets, now);
      addresses := SweepStore(addresses, now);
    }

    method SweepStore(store: Store, now: int) returns (after: Store)
      ensures after == Swept(store, now)
    {
      after := store;
      var rest := store.Keys;
      while rest != {}
        invariant rest <= store.Keys
        invariant after == map key | key in store && (key in rest || store[key].resetAt > now) :: store[key]
        decreases |rest|
      {
        var key :| key in rest;
        if store[key].resetAt <= now {
          after := after - {key};
        }
        rest := rest - {key};
      }
    }
  }

  // ---- sweeping is invisible ----

  function Answers(s: Limiter, es: seq<Event>): seq<bool>
    decreases |es|
  {
    if es == [] then []
    else (if es[0].Message? then [Allowed(s, es[0])] else []) + Answers(Next(s, es[0]), es[1..])
  }

  function WithoutSweeps(es: seq<Event>): seq<Event> {
    if es == [] then [] else (if es[0].Tidy? then [] else [es[0]]) + WithoutSweeps(es[1..])
  }

  ghost predicate Forward(es: seq<Event>, from: int) {
    (forall i :: 0 <= i < |es| ==> from <= es[i].at) && forall i, j :: 0 <= i < j < |es| ==> es[i].at <= es[j].at
  }

  predicate Live(store: Store, key: string, now: int) {
    key in store && store[key].resetAt > now
  }

  ghost predicate SameLive(a: Store, b: Store, now: int) {
    forall key :: (Live(a, key, now) <==> Live(b, key, now)) && (Live(a, key, now) ==> a[key] == b[key])
  }

  lemma SameLiveKept(a: Store, b: Store, rule: Rule, op: Op, from: int)
    requires SameLive(a, b, from) && from <= op.at
    ensures SameLive(Apply(a, rule, op), Apply(b, rule, op), op.at)
    ensures op.Sweep? ==> SameLive(Apply(a, rule, op), b, op.at)
    ensures op.Use? ==> (Allows(a, op.key, rule, op.at) <==> Allows(b, op.key, rule, op.at))
  {
  }

  // Take the sweeps out of any run, wherever the timer put them: every
  // message gets the same answer.
  lemma {:induction false} SweepsAreInvisible(a: Limiter, b: Limiter, es: seq<Event>, from: int)
    requires SameLive(a.sockets, b.sockets, from) && SameLive(a.addresses, b.addresses, from) && Forward(es, from)
    ensures Answers(a, es) == Answers(b, WithoutSweeps(es))
    decreases |es|
  {
    if es != [] {
      var e, rest := es[0], es[1..];
      SameLiveKept(a.sockets, b.sockets, PER_SOCKET, SocketOp(e), from);
      SameLiveKept(a.addresses, b.addresses, PER_ADDRESS, AddressOp(e), from);
      assert Forward(rest, e.at);
      if e.Tidy? {
        assert WithoutSweeps(es) == WithoutSweeps(rest);
        SweepsAreInvisible(Next(a, e), b, rest, e.at);
      } else {
        var without := WithoutSweeps(es);
        assert without == [e] + WithoutSweeps(rest);
        assert without[1..] == WithoutSweeps(rest);
        SweepsAreInvisible(Next(a, e), Next(b, e), rest, e.at);
      }
    }
  }

  // ---- what a client can get ----

  function State(es: seq<Event>): Limiter {
    if es == [] then EMPTY else Next(State(es[..|es| - 1]), es[|es| - 1])
  }

  predicate AllowedLast(es: seq<Event>)
    requires es != []
  {
    es[|es| - 1].Message? && Allowed(State(es[..|es| - 1]), es[|es| - 1])
  }

  // Messages of an address answered yes between two moments, both included.
  function AllowedFrom(es: seq<Event>, address: string, lo: int, hi: int): nat {
    if es == [] then 0
    else AllowedFrom(es[..|es| - 1], address, lo, hi)
         + if AllowedLast(es) && es[|es| - 1].address == address && lo <= es[|es| - 1].at <= hi then 1 else 0
  }

  function AllowedOn(es: seq<Event>, socket: string, lo: int, hi: int): nat {
    if es == [] then 0
    else AllowedOn(es[..|es| - 1], socket, lo, hi)
         + if AllowedLast(es) && es[|es| - 1].socket == socket && lo <= es[|es| - 1].at <= hi then 1 else 0
  }

  function SocketOps(es: seq<Event>): seq<Op> {
    seq(|es|, i requires 0 <= i < |es| => SocketOp(es[i]))
  }

  function AddressOps(es: seq<Event>): seq<Op> {
    seq(|es|, i requires 0 <= i < |es| => AddressOp(es[i]))
  }

  lemma {:induction false} StateByStore(es: seq<Event>)
    ensures State(es) == Limiter(After(PER_SOCKET, SocketOps(es)), After(PER_ADDRESS, AddressOps(es)))
  {
    if es != [] {
      var init := es[..|es| - 1];
      StateByStore(init);
      assert SocketOps(es)[..|es| - 1] == SocketOps(init);
      assert AddressOps(es)[..|es| - 1] == AddressOps(init);
    }
  }

  lemma {:induction false} AllowedAreGrants(es: seq<Event>, socket: string, address: string, lo: int, hi: int)
    ensures AllowedFrom(es, address, lo, hi) <= GrantsIn(PER_ADDRESS, AddressOps(es), address, lo, hi)
    ensures AllowedOn(es, socket, lo, hi) <= GrantsIn(PER_SOCKET, SocketOps(es), socket, lo, hi)
  {
    if es != [] {
      var init := es[..|es| - 1];
      AllowedAreGrants(init, socket, address, lo, hi);
      StateByStore(init);
      assert SocketOps(es)[..|es| - 1] == SocketOps(init);
      assert AddressOps(es)[..|es| - 1] == AddressOps(init);
    }
  }

  // A socket id is not used again once its socket has gone.
  ghost predicate SocketsNotReused(es: seq<Event>) {
    forall i, j :: 0 <= i < j < |es| && es[i].Release? ==> !(es[j].Message? && es[j].socket == es[i].socket)
  }

  ghost predicate InOrder(es: seq<Event>) {
    forall i, j :: 0 <= i < j < |es| ==> es[i].at <= es[j].at
  }

  // However many sockets it opens, an address gets at most 120 messages
  // through in any minute, 119 when the minute does not include both its ends.
  lemma AddressBound(es: seq<Event>, address: string, t: int)
    requires InOrder(es)
    ensures AllowedFrom(es, address, t, t + 60_000) <= 120
    ensures AllowedFrom(es, address, t, t + 59_999) <= 119
  {
    AllowedAreGrants(es, "", address, t, t + 60_000);
    AllowedAreGrants(es, "", address, t, t + 59_999);
    GrantsBounded(PER_ADDRESS, AddressOps(es), address, t);
  }

  // A single socket gets a third of that.
  lemma SocketBound(es: seq<Event>, socket: string, t: int)
    requires InOrder(es) && SocketsNotReused(es)
    ensures AllowedOn(es, socket, t, t + 60_000) <= 40
    ensures AllowedOn(es, socket, t, t + 59_999) <= 39
  {
    AllowedAreGrants(es, socket, "", t, t + 60_000);
    AllowedAreGrants(es, socket, "", t, t + 59_999);
    GrantsBounded(PER_SOCKET, SocketOps(es), socket, t);
  }

  function UsesInLatest(rule: Rule, ops: seq<Op>, key: string): nat {
    var window := LatestWindow(rule, ops, key);
    if window.Opened? then window.uses else 0
  }

  function InLatestWindow(rule: Rule, ops: seq<Op>, key: string): nat {
    var window := LatestWindow(rule, ops, key);
    if window.Opened? then GrantsFrom(rule, ops, key, window.start) else 0
  }

  // And within one window: at most 60, and at most 20 ...
  lemma WindowBound(es: seq<Event>, socket: string, address: string)
    requires InOrder(es) && SocketsNotReused(es)
    ensures InLatestWindow(PER_ADDRESS, AddressOps(es), address) <= 60
    ensures InLatestWindow(PER_SOCKET, SocketOps(es), socket) <= 20
    // ... and every use is granted until that many have been.
    ensures InLatestWindow(PER_ADDRESS, AddressOps(es), address)
              == Min(UsesInLatest(PER_ADDRESS, AddressOps(es), address), 60)
    ensures InLatestWindow(PER_SOCKET, SocketOps(es), socket)
              == Min(UsesInLatest(PER_SOCKET, SocketOps(es), socket), 20)
  {
    AccountHolds(PER_ADDRESS, AddressOps(es), address);
    AccountHolds(PER_SOCKET, SocketOps(es), socket);
  }

  // ---- exactly who is answered yes ----

  lemma SocketNeverForgotten(es: seq<Event>)
    requires es != [] && SocketsNotReused(es) && es[|es| - 1].Message?
    ensures !Forgotten(SocketOps(es), es[|es| - 1].socket) && !Forgotten(AddressOps(es), es[|es| - 1].address)
  {
    forall i | 0 <= i < |es| ensures !(SocketOps(es)[i].Forget? && SocketOps(es)[i].key == es[|es| - 1].socket) {
    }
  }

  // One store's answer is that of the window the use falls in, itself counted.
  lemma AnswerOfStore(rule: Rule, ops: seq<Op>)
    requires rule.windowMs > 0 && rule.limit >= 1 && ClockNeverRunsBack(ops) && ops != [] && ops[|ops| - 1].Use?
    requires NotReused(ops, ops[|ops| - 1].key) && !Forgotten(ops, ops[|ops| - 1].key)
    ensures var last := ops[|ops| - 1];
            Allows(After(rule, ops[..|ops| - 1]), last.key, rule, last.at) <==>
              UsesInLatest(rule, ops, last.key) <= rule.limit
  {
    var init, last := ops[..|ops| - 1], ops[|ops| - 1];
    assert forall i :: 0 <= i < |init| ==> init[i] == ops[i];
    StoreFollows(rule, init, last.key);
  }

  lemma OpsInOrder(es: seq<Event>)
    requires InOrder(es) && SocketsNotReused(es) && es != [] && es[|es| - 1].Message?
    ensures ClockNeverRunsBack(SocketOps(es)) && ClockNeverRunsBack(AddressOps(es))
    ensures NotReused(SocketOps(es), es[|es| - 1].socket) && NotReused(AddressOps(es), es[|es| - 1].address)
  {
  }

  // In any run: a message is let through if and only if it is among the first
  // 20 of its socket's window and among the first 60 of its address's, every
  // message counting, the refused ones too.
  lemma AllowedExactlyWhen(es: seq<Event>)
    requires InOrder(es) && SocketsNotReused(es) && es != [] && es[|es| - 1].Message?
    ensures AllowedLast(es)
            <==> && UsesInLatest(PER_SOCKET, SocketOps(es), es[|es| - 1].socket) <= 20
                 && UsesInLatest(PER_ADDRESS, AddressOps(es), es[|es| - 1].address) <= 60
  {
    hide UsesInLatest, Allows, InOrder, SocketsNotReused, ClockNeverRunsBack, NotReused, Forgotten, After;
    var init := es[..|es| - 1];
    StateByStore(init);
    assert SocketOps(es)[..|es| - 1] == SocketOps(init) && AddressOps(es)[..|es| - 1] == AddressOps(init);
    SocketNeverForgotten(es);
    OpsInOrder(es);
    AnswerOfStore(PER_SOCKET, SocketOps(es));
    AnswerOfStore(PER_ADDRESS, AddressOps(es));
  }

  // Uses of a key after a moment, told from the run alone.
  function UsesSince(ops: seq<Op>, key: string, lo: int): nat {
    if ops == [] then 0
    else UsesSince(ops[..|ops| - 1], key, lo)
         + if ops[|ops| - 1].Use? && ops[|ops| - 1].key == key && lo < ops[|ops| - 1].at then 1 else 0
  }

  lemma {:induction false} UsesFromLater(ops: seq<Op>, key: string, lo: int, hi: int)
    requires lo <= hi
    ensures UsesSince(ops, key, hi) <= UsesSince(ops, key, lo)
  {
    if ops != [] {
      UsesFromLater(ops[..|ops| - 1], key, lo, hi);
    }
  }

  // A window holds no more uses than were made since it opened, and it opened
  // less than its length ago when it was last used.
  lemma {:induction false} WindowIsRecent(rule: Rule, ops: seq<Op>, key: string)
    requires rule.windowMs > 0 && ClockNeverRunsBack(ops)
    ensures var window := LatestWindow(rule, ops, key);
            window.Opened? ==> window.uses <= UsesSince(ops, key, window.start - 1)
    ensures ops != [] && ops[|ops| - 1].Use? && ops[|ops| - 1].key == key ==>
              var window := LatestWindow(rule, ops, key);
              window.Opened? && ops[|ops| - 1].at - rule.windowMs < window.start <= ops[|ops| - 1].at
  {
    if ops != [] {
      var init, last := ops[..|ops| - 1], ops[|ops| - 1];
      assert forall i, j :: 0 <= i < j < |init| ==> init[i] == ops[i] && init[j] == ops[j];
      WindowIsRecent(rule, init, key);
      WindowsOpenInThePast(rule, init, key);
      if init != [] {
        assert init[|init| - 1].at <= last.at;
      }
    }
  }

  lemma {:induction false} WindowsOpenInThePast(rule: Rule, ops: seq<Op>, key: string)
    requires ClockNeverRunsBack(ops)
    ensures var window := LatestWindow(rule, ops, key);
            window.Opened? ==> ops != [] && window.start <= ops[|ops| - 1].at
  {
    if ops != [] {
      var init := ops[..|ops| - 1];
      assert forall i, j :: 0 <= i < j < |init| ==> init[i] == ops[i] && init[j] == ops[j];
      WindowsOpenInThePast(rule, init, key);
      if init != [] {
        assert init[|init| - 1].at <= ops[|ops| - 1].at;
      }
    }
  }

  // So whoever keeps to both limits over the last minute is never refused.
  lemma NeverRefused(es: seq<Event>)
    requires InOrder(es) && SocketsNotReused(es) && es != [] && es[|es| - 1].Message?
    requires UsesSince(SocketOps(es), es[|es| - 1].socket, es[|es| - 1].at - 60_000) <= 20
    requires UsesSince(AddressOps(es), es[|es| - 1].address, es[|es| - 1].at - 60_000) <= 60
    ensures AllowedLast(es)
  {
    var last := es[|es| - 1];
    AllowedExactlyWhen(es);
    WindowWithinMinute(PER_SOCKET, SocketOps(es), last.socket);
    WindowWithinMinute(PER_ADDRESS, AddressOps(es), last.address);
  }

  lemma WindowWithinMinute(rule: Rule, ops: seq<Op>, key: string)
    requires rule.windowMs > 0 && ClockNeverRunsBack(ops)
    requires ops != [] && ops[|ops| - 1].Use? && ops[|ops| - 1].key == key
    ensures UsesInLatest(rule, ops, key) <= UsesSince(ops, key, ops[|ops| - 1].at - rule.windowMs)
  {
    WindowIsRecent(rule, ops, key);
    UsesFromLater(ops, key, ops[|ops| - 1].at - rule.windowMs, LatestWindow(rule, ops, key).start - 1);
  }
}
