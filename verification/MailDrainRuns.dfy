/** What a drain does to each letter, and that it is nothing but a run of the
    outbox machine by a process on its own. */
module MailDrainRuns {
  import opened MailOutbox
  import opened MailDispatcher

  // ---- one attempt, column by column ----

  // The delay after the k-th failure: 1, 5, 15 and 60 minutes, then 6 hours.
  function DelayAfter(k: nat): int
    requires 1 <= k <= 5
  {
    match k
    case 1 => 60_000
    case 2 => 300_000
    case 3 => 900_000
    case 4 => 3_600_000
    case _ => 21_600_000
  }

  ghost predicate AttemptedIs(letter: Letter, after: Letter, accepted: bool, moment: int) {
    && 0 <= letter.attempts <= 5 && after.attempts == letter.attempts + 1
    && after.copies == letter.copies + (if accepted then 1 else 0)
    && (after.status == Sent <==> accepted)
    && (after.status == Failed <==> !accepted && letter.attempts == 5)
    && (after.status == Pending <==> !accepted && letter.attempts < 5)
    && (after.status == Pending ==> after.nextAttemptAt == moment + DelayAfter(letter.attempts + 1))
    && after.excuses == letter.excuses && after.early == letter.early
  }

  // A letter SMTP accepts is SENT with one copy more; one it refuses has its
  // copies as before, and waits the delay for that failure, or, after the
  // sixth, is FAILED. A row that is no longer PENDING is left alone.
  lemma AttemptAnswers(letter: Letter, s: Snapshot, round: Round)
    requires AttemptsOk(letter) && s.attempts == letter.attempts && s.attempts >= 0
    ensures var after := Attempted(letter, s, round);
            if letter.status == Pending then AttemptedIs(letter, after, round.accepts(s.id), round.moment(s.id))
            else after == letter
  {
  }

  // ---- one drain, letter by letter ----

  ghost predicate Taken(due: seq<Snapshot>, id: nat) {
    exists k :: 0 <= k < |due| && due[k].id == id
  }

  lemma {:induction false} AttemptAllIs(letters: seq<Letter>, due: seq<Snapshot>, round: Round, id: nat)
    requires LettersOk(letters) && StillDue(letters, due) && Loaded(letters, due) && id < |letters|
    ensures AttemptAll(letters, due, round)[id]
            == if Taken(due, id) then Attempted(letters[id], Snapshot(id, letters[id].attempts), round) else letters[id]
    decreases |due|
  {
    if due != [] {
      OneAttempt(letters, due, round);
      assert due[0] in due;
      assert due[0] == Snapshot(due[0].id, letters[due[0].id].attempts);
      assert forall s :: s in due[1..] ==> s in due;
      var after := letters[due[0].id := Attempted(letters[due[0].id], due[0], round)];
      AttemptAllIs(after, due[1..], round, id);
      if id == due[0].id {
        assert !Taken(due[1..], id);
      } else if Taken(due, id) {
        var k :| 0 <= k < |due| && due[k].id == id;
        assert due[1..][k - 1].id == id;
      } else {
        assert forall k :: 0 <= k < |due[1..]| ==> due[1..][k] == due[k + 1];
      }
    }
  }

  // The row as a drain finds it: handed back to the queue if it has been
  // SENDING for five minutes.
  ghost predicate FoundAs(letter: Letter, found: Letter, now: int) {
    && found.attempts == letter.attempts && found.copies == letter.copies
    && found.nextAttemptAt == letter.nextAttemptAt
    && var stuck := letter.status == Sending && letter.nextAttemptAt <= now - 300_000;
       found.status == if stuck then Pending else letter.status
  }

  // A drain hands back what is stuck, then attempts each letter of its batch
  // once, and no other.
  lemma DrainedIs(letters: seq<Letter>, round: Round, id: nat)
    requires LettersOk(letters) && id < |letters|
    ensures |Drained(letters, round)| == |letters|
    ensures var found := ReleaseStuck(letters, round.now)[id];
            && FoundAs(letters[id], found, round.now)
            && if InBatch(letters, round, id)
               then found.status == Pending && found.nextAttemptAt <= round.now
                    && AttemptedIs(found, Drained(letters, round)[id], round.accepts(id), round.moment(id))
               else Drained(letters, round)[id] == found
  {
    var released := ReleaseStuck(letters, round.now);
    var due := Batch(released, round.now);
    ReleasedOk(letters, round.now);
    BatchAre(released, round.now);
    AttemptAllIs(released, due, round, id);
    if InBatch(letters, round, id) {
      var s :| s in due && s.id == id;
      assert Taken(due, id);
      AttemptAnswers(released[id], Snapshot(id, released[id].attempts), round);
    } else {
      forall k | 0 <= k < |due| ensures due[k].id != id {
        assert due[k] in due;
      }
    }
  }

  // Who is in the batch: a letter that is due, with fewer than twenty due
  // before it.
  lemma InBatchExactlyWhen(letters: seq<Letter>, round: Round, id: nat)
    requires id < |letters|
    ensures var found := ReleaseStuck(letters, round.now);
            InBatch(letters, round, id) <==>
              found[id].status == Pending && found[id].nextAttemptAt <= round.now && |Due(found, round.now, id)| < 20
  {
    var found := ReleaseStuck(letters, round.now);
    DueAre(found, round.now, |found|);
    DuePosition(found, round.now, id, |found|);
    var all := Due(found, round.now, |found|);
    if IsDue(found[id], round.now) {
      var at := |Due(found, round.now, id)|;
      assert all[at] == Snapshot(id, found[id].attempts);
      if at < 20 {
        assert BatchOf(letters, round)[at] == all[at];
      } else {
        forall s | s in BatchOf(letters, round) ensures s.id != id {
          var k :| 0 <= k < |BatchOf(letters, round)| && BatchOf(letters, round)[k] == s;
          assert all[k] == s && k < at;
        }
      }
    } else {
      forall s | s in BatchOf(letters, round) ensures s.id != id {
        assert s in all;
      }
    }
  }

  lemma {:induction false} DuePosition(letters: seq<Letter>, now: int, id: nat, n: nat)
    requires id < n <= |letters|
    ensures Due(letters, now, id) <= Due(letters, now, n)
    ensures IsDue(letters[id], now) ==>
              && |Due(letters, now, id)| < |Due(letters, now, n)|
              && Due(letters, now, n)[|Due(letters, now, id)|] == Snapshot(id, letters[id].attempts)
  {
    if id < n - 1 {
      DuePosition(letters, now, id, n - 1);
    }
  }

  // ---- any number of drains ----

  // Never sent twice, and SENT only with the copy to show for it.
  predicate Honest(letter: Letter) {
    letter.status in {Pending, Sent, Failed} && letter.copies == if letter.status == Sent then 1 else 0
  }

  lemma {:induction false} SentMeansOneCopy(letters: seq<Letter>, rounds: seq<Round>)
    requires LettersOk(letters) && forall id :: 0 <= id < |letters| ==> Honest(letters[id])
    ensures |DrainAll(letters, rounds)| == |letters|
    ensures forall id :: 0 <= id < |letters| ==> Honest(DrainAll(letters, rounds)[id])
    decreases |rounds|
  {
    if rounds != [] {
      DrainCounts(letters, rounds[0]);
      forall id | 0 <= id < |letters| ensures Honest(Drained(letters, rounds[0])[id]) {
        DrainedIs(letters, rounds[0], id);
      }
      SentMeansOneCopy(Drained(letters, rounds[0]), rounds[1..]);
    }
  }

  // ---- a drain is a run of the outbox machine ----

  function OnItsOwn(now: int, letters: seq<Letter>, p: Process): World {
    World(now, letters, [p], multiset{})
  }

  // The steps of one attempt, as SMTP answers it.
  function AttemptSteps(s: Snapshot, round: Round): seq<Label> {
    [Tick(round.moment(s.id))] + ([Claim(0)] +
      if round.accepts(s.id) then [Deliver(0)] + ([MarkSent(0)] + []) else [Refuse(0)] + ([Reschedule(0)] + []))
  }

  function AttemptsSteps(due: seq<Snapshot>, round: Round): seq<Label> {
    if due == [] then [Finish(0)] + [] else AttemptSteps(due[0], round) + AttemptsSteps(due[1..], round)
  }

  function DrainSteps(letters: seq<Letter>, round: Round): seq<Label> {
    [Tick(round.now)] + ([Release(0)] + ([Fetch(0)] + AttemptsSteps(BatchOf(letters, round), round)))
  }

  // The attempts are made one after another.
  predicate OneAfterAnother(due: seq<Snapshot>, round: Round, from: int) {
    due == [] || (from <= round.moment(due[0].id) && OneAfterAnother(due[1..], round, round.moment(due[0].id)))
  }

  lemma OneFirst(w: World, l: Label, more: seq<Label>)
    requires Enabled(w, l) && CanRun(Step(w, l), more)
    ensures CanRun(w, [l] + more) && After(w, [l] + more) == After(Step(w, l), more)
  {
    assert ([l] + more)[1..] == more;
  }

  lemma NoMore(w: World)
    ensures CanRun(w, []) && After(w, []) == w
  {
  }

  lemma {:induction false} RunsCompose(w: World, a: seq<Label>, b: seq<Label>)
    requires CanRun(w, a) && CanRun(After(w, a), b)
    ensures CanRun(w, a + b) && After(w, a + b) == After(After(w, a), b)
    decreases |a|
  {
    if a == [] {
      assert a + b == b;
    } else {
      assert (a + b)[0] == a[0] && (a + b)[1..] == a[1..] + b;
      RunsCompose(Step(w, a[0]), a[1..], b);
    }
  }

  lemma AttemptIsRun(now: int, letters: seq<Letter>, queue: seq<Snapshot>, round: Round)
    requires queue != [] && queue[0].id < |letters| && queue[0].attempts >= 0 && now <= round.moment(queue[0].id)
    requires letters[queue[0].id].status == Pending
    ensures var s := queue[0];
            var w := OnItsOwn(now, letters, Draining(queue, Nothing));
            && CanRun(w, AttemptSteps(s, round))
            && After(w, AttemptSteps(s, round))
               == OnItsOwn(round.moment(s.id), letters[s.id := Attempted(letters[s.id], s, round)],
                           Draining(queue[1..], Nothing))
  {
    var s, at := queue[0], round.moment(queue[0].id);
    var w := OnItsOwn(now, letters, Draining(queue, Nothing));
    var w1 := OnItsOwn(at, letters, Draining(queue, Nothing));
    var claimed := letters[s.id].(status := Sending, nextAttemptAt := at);
    var w2 := OnItsOwn(at, letters[s.id := claimed], Draining(queue[1..], InFlight(s)));
    assert Step(w, Tick(at)) == w1;
    ClaimStep(w1, s);
    var end := OnItsOwn(at, letters[s.id := Attempted(letters[s.id], s, round)], Draining(queue[1..], Nothing));
    if round.accepts(s.id) {
      SendSteps(w2, letters, claimed, queue[1..], s, end);
    } else {
      RefuseSteps(w2, letters, claimed, queue[1..], s, end);
    }
    hide Step, Enabled, CanRun, After;
    var last := if round.accepts(s.id)
    then [Deliver(0)] + ([MarkSent(0)] + [])
    else [Refuse(0)] + ([Reschedule(0)] + []);
    OneFirst(w1, Claim(0), last);
    ClockStep(w, at);
    OneFirst(w, Tick(at), [Claim(0)] + last);
  }

  lemma ClockStep(w: World, at: int)
    requires w.now <= at
    ensures Enabled(w, Tick(at)) && Step(w, Tick(at)) == w.(now := at)
  {
  }

  lemma ClaimStep(w: World, s: Snapshot)
    requires |w.procs| == 1 && w.procs[0].Draining? && w.procs[0].hand == Nothing
    requires w.procs[0].queue != [] && w.procs[0].queue[0] == s && s.id < |w.letters|
             && w.letters[s.id].status == Pending
    ensures Enabled(w, Claim(0))
    ensures Step(w, Claim(0)) == w.(procs := [Draining(w.procs[0].queue[1..], InFlight(s))],
                                    letters :=
                                      w.letters[s.id := w.letters[s.id].(status := Sending, nextAttemptAt := w.now)])
  {
  }

  lemma SendSteps(w: World, letters: seq<Letter>, claimed: Letter, rest: seq<Snapshot>, s: Snapshot, end: World)
    requires s.id < |letters| && claimed.status == Sending
    requires w == OnItsOwn(w.now, letters[s.id := claimed], Draining(rest, InFlight(s)))
    requires var sent := claimed.(copies := claimed.copies + 1, status := Sent, attempts := s.attempts + 1);
             end == OnItsOwn(w.now, letters[s.id := sent], Draining(rest, Nothing))
    ensures CanRun(w, [Deliver(0)] + ([MarkSent(0)] + [])) && After(w, [Deliver(0)] + ([MarkSent(0)] + [])) == end
  {
    var sent := claimed.(copies := claimed.copies + 1);
    var w1 := OnItsOwn(w.now, letters[s.id := sent], Draining(rest, Delivered(s)));
    assert Step(w, Deliver(0)).letters == w1.letters;
    assert Step(w, Deliver(0)) == w1;
    assert Step(w1, MarkSent(0)).letters == end.letters;
    assert Step(w1, MarkSent(0)) == end;
    NoMore(end);
    OneFirst(w1, MarkSent(0), []);
    OneFirst(w, Deliver(0), [MarkSent(0)] + []);
  }

  lemma RefuseSteps(w: World, letters: seq<Letter>, claimed: Letter, rest: seq<Snapshot>, s: Snapshot, end: World)
    requires s.id < |letters| && claimed.status == Sending && s.attempts >= 0
    requires w == OnItsOwn(w.now, letters[s.id := claimed], Draining(rest, InFlight(s)))
    requires end == OnItsOwn(w.now, letters[s.id := Rescheduled(claimed, s, w.now)], Draining(rest, Nothing))
    ensures CanRun(w, [Refuse(0)] + ([Reschedule(0)] + [])) && After(w, [Refuse(0)] + ([Reschedule(0)] + [])) == end
  {
    var w1 := OnItsOwn(w.now, letters[s.id := claimed], Draining(rest, Undelivered(s)));
    assert Step(w, Refuse(0)) == w1;
    assert Step(w1, Reschedule(0)).letters == end.letters;
    assert Step(w1, Reschedule(0)) == end;
    NoMore(end);
    OneFirst(w1, Reschedule(0), []);
    OneFirst(w, Refuse(0), [Reschedule(0)] + []);
  }

  lemma {:induction false} AttemptsAreRun(now: int, letters: seq<Letter>, due: seq<Snapshot>,
                                          round: Round) returns (end: int)
    requires LettersOk(letters) && StillDue(letters, due) && Loaded(letters, due) && OneAfterAnother(due, round, now)
    ensures var w := OnItsOwn(now, letters, Draining(due, Nothing));
            && CanRun(w, AttemptsSteps(due, round))
            && After(w, AttemptsSteps(due, round)) == OnItsOwn(end, AttemptAll(letters, due, round), Idle)
    decreases |due|
  {
    var w := OnItsOwn(now, letters, Draining(due, Nothing));
    if due == [] {
      end := now;
      var idle := OnItsOwn(now, letters, Idle);
      assert Step(w, Finish(0)) == idle;
      NoMore(idle);
      OneFirst(w, Finish(0), []);
    } else {
      assert due[0] in due && forall s :: s in due[1..] ==> s in due;
      AttemptIsRun(now, letters, due, round);
      OneAttempt(letters, due, round);
      var after := letters[due[0].id := Attempted(letters[due[0].id], due[0], round)];
      end := AttemptsAreRun(round.moment(due[0].id), after, due[1..], round);
      hide CanRun, After, AttemptSteps, Attempted;
      RunsCompose(w, AttemptSteps(due[0], round), AttemptsSteps(due[1..], round));
    }
  }

  // The dispatcher's drain, and the steps of the outbox machine in which every
  // claim, delivery and outcome is its own: the same letters, whatever SMTP
  // answers and however long it takes.
  lemma DrainIsRun(now: int, letters: seq<Letter>, round: Round) returns (end: int)
    requires LettersOk(letters) && now <= round.now && OneAfterAnother(BatchOf(letters, round), round, round.now)
    ensures CanRun(OnItsOwn(now, letters, Idle), DrainSteps(letters, round))
    ensures After(OnItsOwn(now, letters, Idle), DrainSteps(letters, round))
            == OnItsOwn(end, Drained(letters, round), Idle)
  {
    hide CanRun, After, AttemptsSteps, Drained, Step, Enabled, Batch, LettersOk, OneAfterAnother;
    var released, due := ReleaseStuck(letters, round.now), BatchOf(letters, round);
    BatchIsDue(letters, round);
    SameDrain(letters, round);
    end := AttemptsAreRun(round.now, released, due, round);
    BeforeAttempts(now, letters, round);
    var w, w1 := OnItsOwn(now, letters, Idle), OnItsOwn(round.now, letters, Idle);
    OneFirst(OnItsOwn(round.now, released, Fetching), Fetch(0), AttemptsSteps(due, round));
    OneFirst(w1, Release(0), [Fetch(0)] + AttemptsSteps(due, round));
    OneFirst(w, Tick(round.now), [Release(0)] + ([Fetch(0)] + AttemptsSteps(due, round)));
  }

  lemma BatchIsDue(letters: seq<Letter>, round: Round)
    requires LettersOk(letters)
    ensures LettersOk(ReleaseStuck(letters, round.now))
    ensures StillDue(ReleaseStuck(letters, round.now), BatchOf(letters, round))
  {
    ReleasedOk(letters, round.now);
    BatchAre(ReleaseStuck(letters, round.now), round.now);
  }

  lemma BeforeAttempts(now: int, letters: seq<Letter>, round: Round)
    requires now <= round.now
    ensures var released, due := ReleaseStuck(letters, round.now), BatchOf(letters, round);
            var w, w1 := OnItsOwn(now, letters, Idle), OnItsOwn(round.now, letters, Idle);
            var w2 := OnItsOwn(round.now, released, Fetching);
            && Enabled(w, Tick(round.now)) && Step(w, Tick(round.now)) == w1
            && Enabled(w1, Release(0)) && Step(w1, Release(0)) == w2
            && Enabled(w2, Fetch(0)) && Step(w2, Fetch(0)) == OnItsOwn(round.now, released, Draining(due, Nothing))
  {
    hide Batch, ReleaseStuck;
    ReleaseStep(OnItsOwn(round.now, letters, Idle));
  }

  lemma SameDrain(letters: seq<Letter>, round: Round)
    requires LettersOk(letters)
    ensures Loaded(ReleaseStuck(letters, round.now), BatchOf(letters, round))
    ensures Drained(letters, round) == AttemptAll(ReleaseStuck(letters, round.now), BatchOf(letters, round), round)
  {
    ReleasedOk(letters, round.now);
  }

  lemma ReleaseStep(w: World)
    requires w.procs == [Idle]
    ensures Enabled(w, Release(0))
    ensures Step(w, Release(0)) == w.(procs := [Fetching], letters := ReleaseStuck(w.letters, w.now))
  {
    assert forall id :: !AnyBusy(w.procs, id);
    assert Step(w, Release(0)).letters == ReleaseStuck(w.letters, w.now);
  }
}
