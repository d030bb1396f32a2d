/** One dispatcher left alone with its outbox: every drain gets somewhere, and
    no letter waits for ever. */
module MailDispatcher {
  import opened MailOutbox

  // How one drain turned out: when it looked for due letters, which letters
  // SMTP accepted, and the moment each attempt was made.
  datatype Round = Round(now: int, accepts: nat -> bool, moment: nat -> int)

  function ReleaseStuck(letters: seq<Letter>, now: int): seq<Letter> {
    seq(|letters|, id requires 0 <= id < |letters| => Released(letters[id], now, false))
  }

  // Claim, send, and record the outcome; a row that is no longer PENDING is
  // left alone.
  function Attempted(letter: Letter, s: Snapshot, round: Round): Letter
    requires s.attempts >= 0
  {
    if letter.status != Pending then letter
    else
      var claimed := letter.(status := Sending, nextAttemptAt := round.moment(s.id));
      if round.accepts(s.id) then claimed.(copies := claimed.copies + 1, status := Sent, attempts := s.attempts + 1)
      else Rescheduled(claimed, s, round.moment(s.id))
  }

  ghost predicate Loaded(letters: seq<Letter>, due: seq<Snapshot>) {
    forall s :: s in due ==> s.id < |letters| && s.attempts >= 0
  }

  function AttemptAll(letters: seq<Letter>, due: seq<Snapshot>, round: Round): (r: seq<Letter>)
    requires Loaded(letters, due)
    ensures |r| == |letters|
    decreases |due|
  {
    if due == [] then letters
    else
      assert due[0] in due;
      assert forall s :: s in due[1..] ==> s in due;
      AttemptAll(letters[due[0].id := Attempted(letters[due[0].id], due[0], round)], due[1..], round)
  }

  ghost predicate LettersOk(letters: seq<Letter>) {
    forall id :: 0 <= id < |letters| ==> AttemptsOk(letters[id])
  }

  lemma ReleasedOk(letters: seq<Letter>, now: int)
    requires LettersOk(letters)
    ensures LettersOk(ReleaseStuck(letters, now))
    ensures Loaded(ReleaseStuck(letters, now), Batch(ReleaseStuck(letters, now), now))
  {
    BatchAre(ReleaseStuck(letters, now), now);
  }

  function Drained(letters: seq<Letter>, round: Round): seq<Letter>
    requires LettersOk(letters)
  {
    var released := ReleaseStuck(letters, round.now);
    ReleasedOk(letters, round.now);
    AttemptAll(released, Batch(released, round.now), round)
  }

  // The process's own outbox, drained in place.
  class Dispatcher {
    var outbox: seq<Letter>
    var draining: bool

    constructor (outbox: seq<Letter>)
      ensures this.outbox == outbox && !draining
    {
      this.outbox := outbox;
      draining := false;
    }

    // A drain asked for while one is running is not started.
    method Drain(round: Round)
      requires LettersOk(outbox)
      modifies this
      ensures draining == old(draining)
      ensures outbox == if old(draining) then old(outbox) else Drained(old(outbox), round)
    {
      if draining {
        return;
      }
      draining := true;
      RunDrain(round);
      draining := false;
    }

    method RunDrain(round: Round)
      requires LettersOk(outbox)
      modifies this`outbox
      ensures outbox == Drained(old(outbox), round)
    {
      ReleasedOk(outbox, round.now);
      outbox := ReleaseStuck(outbox, round.now);
      var due := Batch(outbox, round.now);
      ghost var released := outbox;
      for i := 0 to |due|
        invariant Loaded(outbox, due[i..])
        invariant AttemptAll(outbox, due[i..], round) == AttemptAll(released, due, round)
      {
        assert due[i..][0] == due[i] && due[i..][1..] == due[i + 1..];
        assert due[i] in due[i..];
        assert forall s :: s in due[i + 1..] ==> s in due[i..];
        Attempt(due[i], round);
      }
    }

    method Attempt(letter: Snapshot, round: Round)
      requires letter.id < |outbox| && letter.attempts >= 0
      modifies this`outbox
      ensures outbox == old(outbox)[letter.id := Attempted(old(outbox)[letter.id], letter, round)]
      // No claim of its own is left behind.
      ensures old(outbox)[letter.id].status == Pending ==>
                outbox[letter.id].status != Sending && outbox[letter.id].attempts == letter.attempts + 1
      // SENT is SMTP's word, and comes with a copy.
      ensures old(outbox)[letter.id].status == Pending ==>
                && (outbox[letter.id].status == Sent <==> round.accepts(letter.id))
                && outbox[letter.id].copies == old(outbox)[letter.id].copies + if round.accepts(letter.id) then 1 else 0
    {
      var row := outbox[letter.id];
      if row.status != Pending {
        return;
      }
      outbox := outbox[letter.id := row.(status := Sending, nextAttemptAt := round.moment(letter.id))];
      row := outbox[letter.id];
      if round.accepts(letter.id) {
        outbox := outbox[letter.id := row.(copies := row.copies + 1, status := Sent, attempts := letter.attempts + 1)];
      } else {
        Reschedule(letter, round.moment(letter.id));
      }
    }

    method Reschedule(letter: Snapshot, now: int)
      requires letter.id < |outbox| && letter.attempts >= 0
      modifies this`outbox
      ensures outbox == old(outbox)[letter.id := Rescheduled(old(outbox)[letter.id], letter, now)]
      ensures outbox[letter.id].status == if letter.attempts < 5 then Pending else Failed
      ensures outbox[letter.id].status == Pending ==> outbox[letter.id].nextAttemptAt >= now + MINUTE
    {
      var attempts := letter.attempts + 1;
      var row := outbox[letter.id];
      if attempts - 1 >= |BACKOFF_MS| {
        outbox := outbox[letter.id := row.(status := Failed, attempts := attempts)];
        return;
      }
      var delay := BACKOFF_MS[attempts - 1];
      outbox := outbox[letter.id := row.(status := Pending, attempts := attempts,
                                         nextAttemptAt := now + delay, notBefore := now + delay)];
    }
  }

  // ---- progress ----

  predicate Unsettled(letter: Letter) {
    letter.status == Pending || letter.status == Sending
  }

  // The attempts a letter has left.
  function Left(letter: Letter): int {
    if Unsettled(letter) then 6 - letter.attempts else 0
  }

  function Remaining(letters: seq<Letter>): int {
    if letters == [] then 0 else Left(letters[0]) + Remaining(letters[1..])
  }

  lemma {:induction false} RemainingOfUpdate(letters: seq<Letter>, id: nat, letter: Letter)
    requires id < |letters|
    ensures Remaining(letters[id := letter]) == Remaining(letters) + Left(letter) - Left(letters[id])
  {
    var updated := letters[id := letter];
    if id == 0 {
      assert updated[1..] == letters[1..];
    } else {
      RemainingOfUpdate(letters[1..], id - 1, letter);
      assert updated[1..] == letters[1..][id - 1 := letter];
    }
  }

  lemma {:induction false} RemainingSame(a: seq<Letter>, b: seq<Letter>)
    requires |a| == |b| && forall id :: 0 <= id < |a| ==> Left(a[id]) == Left(b[id])
    ensures Remaining(a) == Remaining(b)
  {
    if a != [] {
      RemainingSame(a[1..], b[1..]);
    }
  }

  lemma {:induction false} RemainingCounts(letters: seq<Letter>)
    requires LettersOk(letters)
    ensures Remaining(letters) >= 0
    ensures Remaining(letters) == 0 ==> forall id :: 0 <= id < |letters| ==> !Unsettled(letters[id])
  {
    if letters != [] {
      RemainingCounts(letters[1..]);
      assert letters == [letters[0]] + letters[1..];
    }
  }

  // Letters about to be attempted: still as they were when they were loaded.
  ghost predicate StillDue(letters: seq<Letter>, due: seq<Snapshot>) {
    && (forall s :: s in due ==>
         s.id < |letters| && letters[s.id].status == Pending && s.attempts == letters[s.id].attempts)
    && (forall a, b :: 0 <= a < b < |due| ==> due[a].id < due[b].id)
  }

  lemma OneAttempt(letters: seq<Letter>, due: seq<Snapshot>, round: Round)
    requires LettersOk(letters) && StillDue(letters, due) && due != []
    ensures due[0].id < |letters| && due[0].attempts >= 0
    ensures var after := letters[due[0].id := Attempted(letters[due[0].id], due[0], round)];
            LettersOk(after) && StillDue(after, due[1..]) && Remaining(after) <= Remaining(letters) - 1
  {
    assert due[0] in due;
    var letter := Attempted(letters[due[0].id], due[0], round);
    RemainingOfUpdate(letters, due[0].id, letter);
    forall s | s in due[1..] ensures s in due && s.id != due[0].id {
      var k :| 0 <= k < |due[1..]| && due[1..][k] == s;
      assert due[k + 1] == s;
    }
  }

  lemma {:induction false} EveryAttemptCounts(letters: seq<Letter>, due: seq<Snapshot>, round: Round)
    requires LettersOk(letters) && StillDue(letters, due) && Loaded(letters, due)
    ensures LettersOk(AttemptAll(letters, due, round))
    ensures Remaining(AttemptAll(letters, due, round)) <= Remaining(letters) - |due|
    decreases |due|
  {
    if due != [] {
      OneAttempt(letters, due, round);
      assert forall s :: s in due[1..] ==> s in due;
      EveryAttemptCounts(letters[due[0].id := Attempted(letters[due[0].id], due[0], round)], due[1..], round);
    }
  }

  function BatchOf(letters: seq<Letter>, round: Round): seq<Snapshot> {
    Batch(ReleaseStuck(letters, round.now), round.now)
  }

  // A drain uses up one attempt, at least, for every letter in its batch,
  // whatever SMTP said.
  lemma DrainCounts(letters: seq<Letter>, round: Round)
    requires LettersOk(letters)
    ensures LettersOk(Drained(letters, round)) && |Drained(letters, round)| == |letters|
    ensures Remaining(Drained(letters, round)) <= Remaining(letters) - |BatchOf(letters, round)|
  {
    var released := ReleaseStuck(letters, round.now);
    ReleasedOk(letters, round.now);
    BatchAre(released, round.now);
    RemainingSame(letters, released);
    EveryAttemptCounts(released, Batch(released, round.now), round);
  }

  // ---- many drains ----

  function DrainAll(letters: seq<Letter>, rounds: seq<Round>): seq<Letter>
    requires LettersOk(letters)
    decreases |rounds|
  {
    if rounds == [] then letters
    else
      DrainCounts(letters, rounds[0]);
      DrainAll(Drained(letters, rounds[0]), rounds[1..])
  }

  predicate AllSettled(letters: seq<Letter>) {
    forall id :: 0 <= id < |letters| ==> !Unsettled(letters[id])
  }

  // The drains that found something to do.
  function BusyDrains(letters: seq<Letter>, rounds: seq<Round>): nat
    requires LettersOk(letters)
    decreases |rounds|
  {
    if rounds == [] then 0
    else
      DrainCounts(letters, rounds[0]);
      (if BatchOf(letters, rounds[0]) != [] then 1 else 0) + BusyDrains(Drained(letters, rounds[0]), rounds[1..])
  }

  lemma {:induction false} EachBusyDrainCounts(letters: seq<Letter>, rounds: seq<Round>)
    requires LettersOk(letters)
    ensures LettersOk(DrainAll(letters, rounds)) && |DrainAll(letters, rounds)| == |letters|
    ensures Remaining(DrainAll(letters, rounds)) + BusyDrains(letters, rounds) <= Remaining(letters)
    decreases |rounds|
  {
    if rounds != [] {
      DrainCounts(letters, rounds[0]);
      EachBusyDrainCounts(Drained(letters, rounds[0]), rounds[1..]);
    }
  }

  // Whenever the drains come and whatever SMTP says: no more of them can find
  // work than there are attempts left, and after that many every letter has
  // been sent or given up on.
  lemma QueueDrains(letters: seq<Letter>, rounds: seq<Round>)
    requires LettersOk(letters)
    ensures BusyDrains(letters, rounds) <= Remaining(letters)
    ensures BusyDrains(letters, rounds) == Remaining(letters) ==> AllSettled(DrainAll(letters, rounds))
  {
    EachBusyDrainCounts(letters, rounds);
    RemainingCounts(DrainAll(letters, rounds));
  }

  // ---- how long it takes ----

  // Late enough that whatever is unsettled is due.
  ghost predicate Patient(letters: seq<Letter>, round: Round) {
    forall id :: 0 <= id < |letters| && Unsettled(letters[id]) ==>
      letters[id].nextAttemptAt <= round.now - STUCK_AFTER_MS
  }

  lemma SomethingIsDue(letters: seq<Letter>, round: Round)
    requires LettersOk(letters) && Patient(letters, round) && !AllSettled(letters)
    ensures |BatchOf(letters, round)| >= 1
  {
    var released := ReleaseStuck(letters, round.now);
    var id :| 0 <= id < |letters| && Unsettled(letters[id]);
    DueAre(released, round.now, |released|);
    assert IsDue(released[id], round.now);
    assert Snapshot(id, released[id].attempts) in Due(released, round.now, |released|);
  }

  lemma {:induction false} SettledStays(letters: seq<Letter>, rounds: seq<Round>)
    requires LettersOk(letters) && AllSettled(letters)
    ensures AllSettled(DrainAll(letters, rounds))
    decreases |rounds|
  {
    if rounds != [] {
      var released := ReleaseStuck(letters, rounds[0].now);
      ReleasedOk(letters, rounds[0].now);
      BatchAre(released, rounds[0].now);
      var batch := Batch(released, rounds[0].now);
      if batch != [] {
        assert batch[0] in batch;
      }
      assert Drained(letters, rounds[0]) == released;
      DrainCounts(letters, rounds[0]);
      SettledStays(Drained(letters, rounds[0]), rounds[1..]);
    }
  }

  lemma {:induction false} AllUnsettledCount(letters: seq<Letter>)
    requires LettersOk(letters) && !AllSettled(letters)
    ensures Remaining(letters) >= 1
  {
    RemainingCounts(letters[1..]);
    if Unsettled(letters[0]) {
    } else {
      assert letters == [letters[0]] + letters[1..];
      AllUnsettledCount(letters[1..]);
    }
  }

  const LONGEST_DELAY := 6 * 60 * MINUTE

  // Nothing unsettled waits longer than the longest delay after `from`.
  ghost predicate Horizon(letters: seq<Letter>, from: int) {
    forall id :: 0 <= id < |letters| && Unsettled(letters[id]) ==> letters[id].nextAttemptAt <= from + LONGEST_DELAY
  }

  // Drains at most `gap` apart, each over before the next begins. Any number
  // of extra ones may come in between.
  ghost predicate Regular(rounds: seq<Round>, gap: int) {
    forall k :: 0 <= k < |rounds| - 1 ==>
      && rounds[k].now <= rounds[k + 1].now <= rounds[k].now + gap
      && forall id :: rounds[k].moment(id) <= rounds[k + 1].now
  }

  lemma RegularRest(rounds: seq<Round>, gap: int)
    requires |rounds| > 1 && Regular(rounds, gap)
    ensures Regular(rounds[1..], gap)
    ensures rounds[0].now <= rounds[1].now <= rounds[0].now + gap && forall id :: rounds[0].moment(id) <= rounds[1].now
  {
    forall k | 0 <= k < |rounds[1..]| - 1
      ensures && rounds[1..][k].now <= rounds[1..][k + 1].now <= rounds[1..][k].now + gap
              && forall id :: rounds[1..][k].moment(id) <= rounds[1..][k + 1].now
    {
      assert rounds[1..][k] == rounds[k + 1] && rounds[1..][k + 1] == rounds[k + 2];
    }
  }

  lemma DelayIsBounded(letter: Letter, s: Snapshot, round: Round, upTo: int)
    requires s.attempts >= 0 && AttemptsOk(letter) && letter.attempts == s.attempts && round.moment(s.id) <= upTo
    requires Unsettled(letter) ==> letter.nextAttemptAt <= upTo + LONGEST_DELAY
    ensures var after := Attempted(letter, s, round);
            Unsettled(after) ==> after.nextAttemptAt <= upTo + LONGEST_DELAY
  {
  }

  lemma {:induction false} HorizonMoves(letters: seq<Letter>, due: seq<Snapshot>, round: Round, upTo: int)
    requires LettersOk(letters) && StillDue(letters, due) && Loaded(letters, due) && Horizon(letters, upTo)
    requires forall id :: round.moment(id) <= upTo
    ensures Horizon(AttemptAll(letters, due, round), upTo)
    decreases |due|
  {
    if due != [] {
      OneAttempt(letters, due, round);
      assert due[0] in due;
      DelayIsBounded(letters[due[0].id], due[0], round, upTo);
      assert forall s :: s in due[1..] ==> s in due;
      HorizonMoves(letters[due[0].id := Attempted(letters[due[0].id], due[0], round)], due[1..], round, upTo);
    }
  }

  lemma DrainedHorizon(letters: seq<Letter>, round: Round, upTo: int)
    requires LettersOk(letters) && Horizon(letters, upTo) && forall id :: round.moment(id) <= upTo
    ensures Horizon(Drained(letters, round), upTo)
  {
    var released := ReleaseStuck(letters, round.now);
    ReleasedOk(letters, round.now);
    BatchAre(released, round.now);
    HorizonMoves(released, Batch(released, round.now), round, upTo);
  }

  lemma IdleDrain(letters: seq<Letter>, round: Round)
    requires LettersOk(letters) && BatchOf(letters, round) == []
    ensures Drained(letters, round) == ReleaseStuck(letters, round.now)
  {
  }

  lemma StillUnsettled(letters: seq<Letter>, round: Round, from: int)
    requires Horizon(letters, from)
    ensures Horizon(ReleaseStuck(letters, round.now), from)
    ensures Remaining(ReleaseStuck(letters, round.now)) == Remaining(letters)
  {
    RemainingSame(letters, ReleaseStuck(letters, round.now));
  }

  // The longest a letter can keep the queue from making progress, drains being
  // at most `gap` apart.
  function Cycle(gap: int): int {
    LONGEST_DELAY + STUCK_AFTER_MS + 2 * gap
  }

  // A drain that finds nothing while something is unsettled came too early
  // for it, so the next one is still within the cycle.
  lemma IdleMeansEarly(letters: seq<Letter>, round: Round, from: int)
    requires LettersOk(letters) && Horizon(letters, from) && !AllSettled(letters) && BatchOf(letters, round) == []
    ensures round.now < from + LONGEST_DELAY + STUCK_AFTER_MS
    ensures var after := Drained(letters, round);
            LettersOk(after) && Horizon(after, from) && Remaining(after) == Remaining(letters)
  {
    if round.now >= from + LONGEST_DELAY + STUCK_AFTER_MS {
      SomethingIsDue(letters, round);
      assert false;
    }
    DrainCounts(letters, round);
    IdleDrain(letters, round);
    StillUnsettled(letters, round, from);
  }

  lemma BusyMeansProgress(letters: seq<Letter>, round: Round, from: int, next: int)
    requires LettersOk(letters) && Horizon(letters, from) && BatchOf(letters, round) != []
    requires from <= next && forall id :: round.moment(id) <= next
    ensures var after := Drained(letters, round);
            LettersOk(after) && Horizon(after, next) && Remaining(after) <= Remaining(letters) - 1
  {
    DrainCounts(letters, round);
    DrainedHorizon(letters, round, next);
  }

  // On the dispatcher's timer, however short its period, with any number of
  // nudges in between: within one such cycle for each attempt left, every
  // letter has been sent or given up on.
  lemma {:induction false} TimerDrains(letters: seq<Letter>, rounds: seq<Round>, gap: int, from: int)
    requires LettersOk(letters) && Horizon(letters, from) && rounds != [] && gap > 0 && Regular(rounds, gap)
    requires from <= rounds[0].now <= from + LONGEST_DELAY + STUCK_AFTER_MS + gap
    requires rounds[|rounds| - 1].now >= from + Remaining(letters) * Cycle(gap)
    ensures AllSettled(DrainAll(letters, rounds))
    decreases |rounds|
  {
    hide LettersOk, Horizon, Regular, BatchOf, Drained, AllSettled, Remaining;
    if AllSettled(letters) {
      SettledStays(letters, rounds);
    } else {
      AllUnsettledCount(letters);
      Cycles(0, Remaining(letters), Cycle(gap));
      assert |rounds| > 1;
      RegularRest(rounds, gap);
      DrainCounts(letters, rounds[0]);
      var after := Drained(letters, rounds[0]);
      if BatchOf(letters, rounds[0]) == [] {
        IdleMeansEarly(letters, rounds[0], from);
        TimerDrains(after, rounds[1..], gap, from);
      } else {
        BusyMeansProgress(letters, rounds[0], from, rounds[1].now);
        Cycles(Remaining(after), Remaining(letters), Cycle(gap));
        TimerDrains(after, rounds[1..], gap, rounds[1].now);
      }
    }
  }

  lemma Cycles(after: int, before: int, cycle: int)
    requires after <= before - 1 && cycle >= 0
    ensures after * cycle <= before * cycle - cycle
  {
    assert (before - 1) * cycle == before * cycle - cycle;
    assert (before - 1 - after) * cycle >= 0;
  }

  predicate InBatch(letters: seq<Letter>, round: Round, id: nat) {
    exists s :: s in BatchOf(letters, round) && s.id == id
  }

  ghost predicate PassedOver(letters: seq<Letter>, rounds: seq<Round>, id: nat)
    requires LettersOk(letters)
    decreases |rounds|
  {
    rounds == [] ||
    (DrainCounts(letters, rounds[0]);
     && id < |letters| && IsDue(ReleaseStuck(letters, rounds[0].now)[id], rounds[0].now)
     && !InBatch(letters, rounds[0], id)
     && PassedOver(Drained(letters, rounds[0]), rounds[1..], id))
  }

  // The batch of twenty starves nobody: a due letter can be passed over only
  // while twenty others use up attempts each time.
  lemma {:induction false} NobodyStarves(letters: seq<Letter>, rounds: seq<Round>, id: nat)
    requires LettersOk(letters) && PassedOver(letters, rounds, id)
    ensures BATCH_SIZE * |rounds| <= Remaining(letters)
    decreases |rounds|
  {
    RemainingCounts(letters);
    if rounds != [] {
      var released := ReleaseStuck(letters, rounds[0].now);
      DueAre(released, rounds[0].now, |released|);
      assert Snapshot(id, released[id].attempts) in Due(released, rounds[0].now, |released|);
      assert |BatchOf(letters, rounds[0])| == BATCH_SIZE;
      DrainCounts(letters, rounds[0]);
      NobodyStarves(Drained(letters, rounds[0]), rounds[1..], id);
    }
  }
}
