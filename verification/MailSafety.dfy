/** How often a letter can be delivered, and how soon it can be tried again. */
module MailSafety {
  import opened MailOutbox

  // Does p still owe this letter a delivery?
  function Carries(p: Process, id: nat): nat {
    if Busy(p, id) && !p.hand.Delivered? then 1 else 0
  }

  function CarriedBy(procs: seq<Process>, id: nat): nat {
    if procs == [] then 0 else Carries(procs[0], id) + CarriedBy(procs[1..], id)
  }

  // A letter still to be claimed: waiting, or left in SENDING by nobody.
  function Waiting(letter: Letter, busy: bool): nat {
    if letter.status == Pending || (letter.status == Sending && !busy) then 1 else 0
  }

  // The deliveries that may yet happen without anything further going wrong.
  function Owed(w: World, id: nat): nat
    requires id < |w.letters|
  {
    Waiting(w.letters[id], AnyBusy(w.procs, id)) + CarriedBy(w.procs, id)
  }

  ghost predicate CopiesAccountedFor(w: World) {
    forall id :: 0 <= id < |w.letters| ==>
      w.letters[id].copies + Owed(w, id) <= 1 + w.letters[id].excuses + w.letters[id].early
  }

  lemma {:induction false} CarriedUpdate(procs: seq<Process>, i: nat, p: Process, id: nat)
    requires i < |procs|
    ensures CarriedBy(procs[i := p], id) == CarriedBy(procs, id) + Carries(p, id) - Carries(procs[i], id)
  {
    if i == 0 {
      assert procs[i := p][1..] == procs[1..];
    } else {
      assert procs[i := p][1..] == procs[1..][i - 1 := p];
      CarriedUpdate(procs[1..], i - 1, p, id);
    }
  }

  lemma {:induction false} NobodyCarries(procs: seq<Process>, id: nat)
    requires forall i :: 0 <= i < |procs| ==> !Busy(procs[i], id)
    ensures CarriedBy(procs, id) == 0
  {
    if procs != [] {
      NobodyCarries(procs[1..], id);
    }
  }

  predicate OthersBusy(procs: seq<Process>, i: nat, id: nat) {
    exists j :: 0 <= j < |procs| && j != i && Busy(procs[j], id)
  }

  // What one process's step does to what is owed, seen from any letter.
  lemma OwedAfter(w: World, i: nat, p: Process, id: nat, letter: Letter)
    requires i < |w.procs| && id < |w.letters|
    ensures AnyBusy(w.procs, id) == (OthersBusy(w.procs, i, id) || Busy(w.procs[i], id))
    ensures AnyBusy(w.procs[i := p], id) == (OthersBusy(w.procs, i, id) || Busy(p, id))
    ensures CarriedBy(w.procs[i := p], id) == CarriedBy(w.procs, id) + Carries(p, id) - Carries(w.procs[i], id)
  {
    var procs' := w.procs[i := p];
    CarriedUpdate(w.procs, i, p, id);
    assert procs'[i] == p;
    if OthersBusy(w.procs, i, id) {
      var j :| 0 <= j < |w.procs| && j != i && Busy(w.procs[j], id);
      assert procs'[j] == w.procs[j];
    }
  }

  predicate OfProcess(l: Label) {
    !(l.Tick? || l.Enqueue? || l.RetryRead? || l.RetryWrite? || l.ClearSettled?)
  }

  // One letter's account across one step of process i.
  ghost predicate Settles(w: World, w': World, id: nat)
    requires id < |w.letters| && id < |w'.letters|
  {
    w'.letters[id].copies + Owed(w', id) - w'.letters[id].excuses - w'.letters[id].early
    <= w.letters[id].copies + Owed(w, id) - w.letters[id].excuses - w.letters[id].early
  }

  lemma ProcessStepSettles(w: World, l: Label, id: nat)
    requires AttemptsBounded(w) && Enabled(w, l) && OfProcess(l) && id < |w.letters|
    ensures |Step(w, l).letters| == |w.letters| && Settles(w, Step(w, l), id)
  {
    hide CarriedBy, AttemptsBounded, AnyBusy, OthersBusy, Batch;
    var w' := Step(w, l);
    var i := l.i;
    OwedAfter(w, i, w'.procs[i], id, w'.letters[id]);
    assert w'.procs == w.procs[i := w'.procs[i]];
    match l {
      case Claim(_) =>
      case Deliver(_) =>
      case MarkSent(_) =>
      case LoseSent(_) =>
      case Reschedule(_) =>
      case Crash(_) =>
      case _ =>
    }
  }

  // Every copy handed to SMTP beyond the first has an excuse: a crash after a
  // delivery, a SENT mark that was lost, the admin's button, or a release of
  // a letter another process was still sending.
  lemma CopiesKept(w: World, l: Label)
    requires AttemptsBounded(w) && CopiesAccountedFor(w) && Enabled(w, l)
    ensures CopiesAccountedFor(Step(w, l))
  {
    var w' := Step(w, l);
    forall id | 0 <= id < |w'.letters|
      ensures w'.letters[id].copies + Owed(w', id) <= 1 + w'.letters[id].excuses + w'.letters[id].early
    {
      if id == |w.letters| {
        NobodyCarries(w.procs, id);
      } else if OfProcess(l) {
        ProcessStepSettles(w, l, id);
      }
    }
  }

  lemma {:induction false} CopiesAlwaysAccountedFor(w: World, ls: seq<Label>)
    requires AttemptsBounded(w) && CopiesAccountedFor(w) && CanRun(w, ls)
    ensures AttemptsBounded(After(w, ls)) && CopiesAccountedFor(After(w, ls))
    decreases |ls|
  {
    if ls != [] {
      AttemptsKept(w, ls[0]);
      CopiesKept(w, ls[0]);
      CopiesAlwaysAccountedFor(Step(w, ls[0]), ls[1..]);
    }
  }

  lemma StartIsSound(n: nat, now: int)
    ensures AttemptsBounded(Start(n, now)) && CopiesAccountedFor(Start(n, now)) && SentOk(Start(n, now))
  {
  }

  // ---- no letter is lost ----

  ghost predicate SentOk(w: World) {
    && (forall id :: 0 <= id < |w.letters| && w.letters[id].status == Sent ==> w.letters[id].copies >= 1)
    && (forall i :: 0 <= i < |w.procs| ==> HandDelivered(w, w.procs[i]))
  }

  predicate HandDelivered(w: World, p: Process) {
    p.Draining? && p.hand.Delivered? ==>
      p.hand.letter.id < |w.letters| && w.letters[p.hand.letter.id].copies >= 1
  }

  lemma SentKept(w: World, l: Label)
    requires SentOk(w) && Enabled(w, l)
    ensures SentOk(Step(w, l))
  {
    hide Batch, AnyBusy;
    CopiesStay(w, l);
    HandsKept(w, l);
    SentRowsKept(w, l);
  }

  lemma HandsKept(w: World, l: Label)
    requires SentOk(w) && Enabled(w, l)
    ensures |Step(w, l).procs| == |w.procs|
    ensures forall i :: 0 <= i < |w.procs| ==> HandDelivered(Step(w, l), Step(w, l).procs[i])
  {
    hide Batch, AnyBusy, Released, Rescheduled;
    CopiesStay(w, l);
    var after := Step(w, l);
    forall i | 0 <= i < |w.procs| ensures HandDelivered(after, after.procs[i]) {
      assert HandDelivered(w, w.procs[i]);
    }
  }

  lemma SentRowsKept(w: World, l: Label)
    requires SentOk(w) && Enabled(w, l)
    ensures forall id :: 0 <= id < |Step(w, l).letters| && Step(w, l).letters[id].status == Sent ==>
              Step(w, l).letters[id].copies >= 1
  {
    hide Batch, AnyBusy;
    if l.MarkSent? {
      assert HandDelivered(w, w.procs[l.i]);
    }
  }

  // A copy once delivered stays delivered.
  lemma CopiesStay(w: World, l: Label)
    requires Enabled(w, l)
    ensures |w.letters| <= |Step(w, l).letters| && |Step(w, l).procs| == |w.procs|
    ensures forall id :: 0 <= id < |w.letters| ==> w.letters[id].copies <= Step(w, l).letters[id].copies
  {
    hide Batch, AnyBusy;
  }

  // The excuses for one letter: it reached SMTP and the process failed to say
  // so, or somebody asked for it to be sent again.
  predicate Excuses(w: World, l: Label, id: nat)
    requires Enabled(w, l) && id < |w.letters|
  {
    || (l.LoseSent? && w.procs[l.i].hand.letter.id == id)
    || (l.Crash? && Holding(w, l.i) && w.procs[l.i].hand.Delivered? && w.procs[l.i].hand.letter.id == id)
    || (l.RetryWrite? && l.id == id && w.letters[id].status != Deleted)
  }

  // Released, stuck for five minutes, while some process still has it in hand.
  ghost predicate ReleasedInHand(w: World, l: Label, id: nat)
    requires id < |w.letters|
  {
    && l.Release? && w.letters[id].status == Sending && w.letters[id].nextAttemptAt <= w.now - 300_000
    && exists i :: 0 <= i < |w.procs| && Busy(w.procs[i], id)
  }

  // Each is counted once and nothing else is, nor is a copy but by delivery.
  lemma ExcusesAre(w: World, l: Label, id: nat)
    requires Enabled(w, l) && id < |w.letters|
    ensures var row, after := w.letters[id], Step(w, l).letters[id];
            && after.excuses == row.excuses + (if Excuses(w, l, id) then 1 else 0)
            && after.early == row.early + (if ReleasedInHand(w, l, id) then 1 else 0)
            && after.copies == row.copies + (if l.Deliver? && w.procs[l.i].hand.letter.id == id then 1 else 0)
  {
    hide Batch;
    CopiesStay(w, l);
  }

  // With any number of processes, crashes and lost writes: no letter is SENT
  // that SMTP never accepted.
  lemma {:induction false} SentWasDelivered(w: World, ls: seq<Label>)
    requires SentOk(w) && CanRun(w, ls)
    ensures SentOk(After(w, ls))
    decreases |ls|
  {
    if ls != [] {
      SentKept(w, ls[0]);
      SentWasDelivered(Step(w, ls[0]), ls[1..]);
    }
  }

  // Letters leave the outbox only by being cleared away, SENT or SKIPPED.
  lemma OnlySettledLeave(w: World, l: Label, id: nat)
    requires Enabled(w, l) && id < |w.letters|
    ensures Step(w, l).letters[id].status == Deleted
            <==> w.letters[id].status == Deleted || (l == ClearSettled && w.letters[id].status in {Sent, Skipped})
  {
    hide Batch, AnyBusy;
  }

  lemma TwoSteps(w: World, a: Label, b: Label)
    requires Enabled(w, a) && Enabled(Step(w, a), b)
    ensures CanRun(w, [a, b]) && After(w, [a, b]) == Step(Step(w, a), b)
  {
    hide Enabled, Step;
    var w1 := Step(w, a);
    var w2 := Step(w1, b);
    assert [a, b][1..] == [b] && [b][1..] == [];
    assert CanRun(w2, []) && After(w2, []) == w2;
    assert CanRun(w1, [b]) && After(w1, [b]) == w2;
  }

  // "Send again" puts a letter that is not on its way back at the start, due
  // at once, and no other.
  lemma SendAgainIs(w: World, id: nat)
    requires id < |w.letters| && w.letters[id].status !in {Sending, Deleted}
    ensures CanRun(w, [RetryRead(id), RetryWrite(id)])
    ensures var after := After(w, [RetryRead(id), RetryWrite(id)]);
            && after.procs == w.procs && after.retrying == w.retrying && after.now == w.now
            && |after.letters| == |w.letters|
            && after.letters[id].status == Pending && after.letters[id].attempts == 0
            && IsDue(after.letters[id], after.now) && after.letters[id].copies == w.letters[id].copies
            && forall k :: 0 <= k < |w.letters| && k != id ==> after.letters[k] == w.letters[k]
  {
    TwoSteps(w, RetryRead(id), RetryWrite(id));
    hide CanRun, After;
  }

  // A letter SMTP has taken, whose row cannot be marked so, waits to be sent
  // once more, with the attempts and the delay of one that was refused.
  lemma LostMarkIsRetried(w: World, i: nat)
    requires Enabled(w, LoseSent(i)) && 0 <= w.procs[i].hand.letter.attempts <= 4
    requires w.letters[w.procs[i].hand.letter.id].status == Sending
    ensures CanRun(w, [LoseSent(i), Reschedule(i)])
    ensures |After(w, [LoseSent(i), Reschedule(i)]).letters| == |w.letters|
    ensures var s := w.procs[i].hand.letter;
            var row, after := w.letters[s.id], After(w, [LoseSent(i), Reschedule(i)]).letters[s.id];
            && after.status == Pending && after.copies == row.copies && after.attempts == s.attempts + 1
            && after.nextAttemptAt > w.now && after.excuses == row.excuses + 1
  {
    TwoSteps(w, LoseSent(i), Reschedule(i));
    hide CanRun, After;
  }

  // ---- one process ----

  // What a single process has in hand or still to do is its own business:
  // nothing is released under it, and no row becomes due before its time.
  ghost predicate Alone(w: World) {
    && |w.procs| == 1
    && (forall id :: 0 <= id < |w.letters| ==> LetterAlone(w.letters[id]))
    && (w.procs[0].Draining? ==> QueueAlone(w, w.procs[0]))
  }

  predicate LetterAlone(letter: Letter) {
    && letter.early == 0
    && (letter.status == Pending || letter.status == Sending ==> letter.notBefore <= letter.nextAttemptAt)
  }

  ghost predicate QueueAlone(w: World, p: Process)
    requires p.Draining?
  {
    && (forall a, b :: 0 <= a < b < |p.queue| ==> p.queue[a].id < p.queue[b].id)
    && (p.hand != Nothing ==> forall s :: s in p.queue ==> p.hand.letter.id < s.id)
    && (forall s :: s in p.queue ==> Ripe(w, s))
  }

  predicate Ripe(w: World, s: Snapshot) {
    s.id < |w.letters| && (w.letters[s.id].status == Pending ==> w.letters[s.id].notBefore <= w.now)
  }

  lemma LettersAlone(w: World, l: Label)
    requires AttemptsBounded(w) && Alone(w) && Enabled(w, l)
    ensures forall id :: 0 <= id < |Step(w, l).letters| ==> LetterAlone(Step(w, l).letters[id])
  {
    hide AttemptsBounded, QueueAlone, Batch, AnyBusy, Released;
    match l {
      case Claim(i) =>
        QueueIsRipe(w);
      case Release(i) => ReleasedAlone(w, i);
      case Reschedule(i) => HandOk(w);
      case _ =>
    }
  }

  lemma ReleasedAlone(w: World, i: nat)
    requires Alone(w) && Enabled(w, Release(i))
    ensures forall id :: 0 <= id < |Step(w, Release(i)).letters| ==> LetterAlone(Step(w, Release(i)).letters[id])
  {
    assert forall id :: !AnyBusy(w.procs, id);
  }

  lemma HandOk(w: World)
    requires AttemptsBounded(w)
    ensures forall i :: 0 <= i < |w.procs| && Holding(w, i) ==> 0 <= w.procs[i].hand.letter.attempts <= 5
  {
  }

  lemma QueueIsRipe(w: World)
    requires Alone(w) && w.procs[0].Draining? && w.procs[0].queue != []
    ensures Ripe(w, w.procs[0].queue[0])
  {
  }

  lemma StaysRipe(w: World, l: Label, s: Snapshot)
    requires Enabled(w, l) && Ripe(w, s)
    requires l.Reschedule? ==> w.procs[l.i].hand.letter.id != s.id
    requires l.Release? ==> s.id < |w.letters| && w.letters[s.id].status != Sending
    ensures Ripe(Step(w, l), s)
  {
  }

  lemma QueuesAlone(w: World, l: Label)
    requires AttemptsBounded(w) && Alone(w) && Enabled(w, l) && Step(w, l).procs[0].Draining?
    ensures QueueAlone(Step(w, l), Step(w, l).procs[0])
  {
    hide AttemptsBounded, Ripe, LetterAlone, Batch;
    var w' := Step(w, l);
    if l.Fetch? {
      FetchedAlone(w, l.i);
    } else {
      var queue, queue' := w.procs[0].queue, w'.procs[0].queue;
      assert queue' == queue || queue' == queue[1..];
      forall s | s in queue' ensures s in queue && Ripe(w', s) {
        assert s in queue;
        StaysRipe(w, l, s);
      }
    }
  }

  lemma FetchedAlone(w: World, i: nat)
    requires Alone(w) && Enabled(w, Fetch(i))
    ensures QueueAlone(Step(w, Fetch(i)), Draining(Batch(w.letters, w.now), Nothing))
  {
    BatchAre(w.letters, w.now);
    forall s | s in Batch(w.letters, w.now) ensures Ripe(Step(w, Fetch(i)), s) {
      assert LetterAlone(w.letters[s.id]);
    }
  }

  lemma AloneKept(w: World, l: Label)
    requires AttemptsBounded(w) && Alone(w) && Enabled(w, l)
    ensures Alone(Step(w, l))
  {
    hide AttemptsBounded, LetterAlone, QueueAlone, Batch, Released, AnyBusy, Rescheduled, Write;
    LettersAlone(w, l);
    if Step(w, l).procs[0].Draining? {
      QueuesAlone(w, l);
    }
  }

  lemma {:induction false} AlwaysAlone(w: World, ls: seq<Label>)
    requires AttemptsBounded(w) && CopiesAccountedFor(w) && Alone(w) && CanRun(w, ls)
    ensures AttemptsBounded(After(w, ls)) && CopiesAccountedFor(After(w, ls)) && Alone(After(w, ls))
    decreases |ls|
  {
    if ls != [] {
      AttemptsKept(w, ls[0]);
      CopiesKept(w, ls[0]);
      AloneKept(w, ls[0]);
      AlwaysAlone(Step(w, ls[0]), ls[1..]);
    }
  }

  // In any run of one process: a letter is delivered once, plus at most once
  // for each crash after a delivery, each lost SENT mark and each press of
  // "send again"; it is never handed back to the queue while being sent.
  lemma DeliveredOnce(now: int, ls: seq<Label>, id: nat)
    requires CanRun(Start(1, now), ls) && id < |After(Start(1, now), ls).letters|
    ensures var letter := After(Start(1, now), ls).letters[id];
            letter.copies <= 1 + letter.excuses && letter.early == 0
  {
    StartIsSound(1, now);
    AlwaysAlone(Start(1, now), ls);
  }

  // In one process, no attempt comes before the delay the last recorded
  // failure asked for.
  lemma BackoffRespected(now: int, ls: seq<Label>, i: nat)
    requires CanRun(Start(1, now), ls) && Enabled(After(Start(1, now), ls), Claim(i))
    ensures var w := After(Start(1, now), ls);
            var letter := w.letters[w.procs[i].queue[0].id];
            letter.status == Pending ==> letter.notBefore <= w.now
  {
    StartIsSound(1, now);
    AlwaysAlone(Start(1, now), ls);
    var w := After(Start(1, now), ls);
    assert w.procs[i].queue[0] in w.procs[i].queue;
  }

  // ---- several processes ----

  // What can end a claim: a holder writing its outcome, a release of a stuck
  // row, or the admin's button pressed before the claim was made.
  predicate EndsClaim(w: World, l: Label, id: nat) {
    match l
    case MarkSent(i) => i < |w.procs| && Busy(w.procs[i], id)
    case Reschedule(i) => i < |w.procs| && Busy(w.procs[i], id)
    case Release(i) => id < |w.letters| && Stuck(w.letters[id], w.now)
    case RetryWrite(k) => k == id
    case _ => false
  }

  predicate ClaimSucceeds(w: World, l: Label, id: nat) {
    l.Claim? && Enabled(w, l) && w.procs[l.i].queue[0].id == id && w.letters[id].status == Pending
  }

  ghost predicate Undisturbed(w: World, ls: seq<Label>, id: nat)
    requires CanRun(w, ls)
    decreases |ls|
  {
    ls == [] || (!EndsClaim(w, ls[0], id) && Undisturbed(Step(w, ls[0]), ls[1..], id))
  }

  // Until one of those happens the row stays in SENDING, and nobody else's
  // claim of it, however stale their list, succeeds.
  lemma {:induction false} ClaimIsExclusive(w: World, ls: seq<Label>, next: Label, id: nat)
    requires id < |w.letters| && w.letters[id].status == Sending
    requires CanRun(w, ls) && Undisturbed(w, ls, id)
    ensures id < |After(w, ls).letters| && After(w, ls).letters[id].status == Sending
    ensures !ClaimSucceeds(After(w, ls), next, id)
    decreases |ls|
  {
    if ls != [] {
      assert Step(w, ls[0]).letters[id].status == Sending;
      ClaimIsExclusive(Step(w, ls[0]), ls[1..], next, id);
    }
  }

  // ---- how soon, exactly ----

  // A claim before the delay its letter's last recorded failure asked for ...
  predicate ClaimsEarly(w: World, l: Label) {
    l.Claim? && Enabled(w, l) && w.letters[w.procs[l.i].queue[0].id].status == Pending
    && w.now < w.letters[w.procs[l.i].queue[0].id].notBefore
  }

  // ... and what the claim could have asked of the row: that it is due.
  predicate ClaimsUndue(w: World, l: Label) {
    l.Claim? && Enabled(w, l) && w.letters[w.procs[l.i].queue[0].id].status == Pending
    && w.now < w.letters[w.procs[l.i].queue[0].id].nextAttemptAt
  }

  ghost predicate Spaced(w: World) {
    forall id :: 0 <= id < |w.letters| ==> LetterSpaced(w.letters[id], w.now)
  }

  predicate LetterSpaced(letter: Letter, now: int) {
    && (letter.status == Pending || letter.status == Sending ==> letter.notBefore <= letter.nextAttemptAt)
    && (letter.status == Pending && now < letter.nextAttemptAt ==> letter.notBefore == letter.nextAttemptAt)
    && (letter.status == Sending ==> letter.nextAttemptAt <= now)
  }

  // Until a claim has taken a row that was not due, the two come to the same.
  lemma EarlyIsUndue(w: World, l: Label)
    requires Spaced(w) && Enabled(w, l)
    ensures ClaimsEarly(w, l) <==> ClaimsUndue(w, l)
    ensures !ClaimsUndue(w, l) ==> Spaced(Step(w, l))
  {
    hide Batch, AnyBusy;
  }

  ghost predicate SomeClaimEarly(w: World, ls: seq<Label>)
    requires CanRun(w, ls)
    decreases |ls|
  {
    ls != [] && (ClaimsEarly(w, ls[0]) || SomeClaimEarly(Step(w, ls[0]), ls[1..]))
  }

  ghost predicate SomeClaimUndue(w: World, ls: seq<Label>)
    requires CanRun(w, ls)
    decreases |ls|
  {
    ls != [] && (ClaimsUndue(w, ls[0]) || SomeClaimUndue(Step(w, ls[0]), ls[1..]))
  }

  // With any number of processes: a run keeps every delay if and only if each
  // claim that succeeds finds its row due. The claim does not look.
  lemma {:induction false} DelaysKeptExactlyWhen(w: World, ls: seq<Label>)
    requires Spaced(w) && CanRun(w, ls)
    ensures SomeClaimEarly(w, ls) <==> SomeClaimUndue(w, ls)
    ensures !SomeClaimUndue(w, ls) ==> Spaced(After(w, ls))
    decreases |ls|
  {
    if ls != [] {
      EarlyIsUndue(w, ls[0]);
      if !ClaimsUndue(w, ls[0]) {
        DelaysKeptExactlyWhen(Step(w, ls[0]), ls[1..]);
      }
    }
  }

  // The first claim to break a delay, seen on its own.
  lemma FirstHurry(n: nat, now: int, ls: seq<Label>, l: Label)
    requires CanRun(Start(n, now), ls) && Enabled(After(Start(n, now), ls), l)
    requires !SomeClaimUndue(Start(n, now), ls)
    ensures ClaimsEarly(After(Start(n, now), ls), l) <==> ClaimsUndue(After(Start(n, now), ls), l)
  {
    DelaysKeptExactlyWhen(Start(n, now), ls);
    EarlyIsUndue(After(Start(n, now), ls), l);
  }

  // With two processes the delay is not kept: the claim asks only whether the
  // row is PENDING, and a list fetched before a failure still names it.
  const TWO_DISPATCHERS := [
    Enqueue(true), Release(0), Fetch(0), Release(1), Fetch(1), Claim(0), Refuse(0), Reschedule(0)]

  lemma {:induction false} RunsCompose(w: World, a: seq<Label>, b: seq<Label>)
    requires CanRun(w, a) && CanRun(After(w, a), b)
    ensures CanRun(w, a + b) && After(w, a + b) == After(After(w, a), b)
    decreases |a|
  {
    if a == [] {
      assert a + b == b;
    } else {
      assert (a + b)[0] == a[0] && (a + b)[1..] == a[1..] + b;
      RunsCompose(Step(w, a[0]), a[1..], b);
    }
  }

  lemma OneStep(w: World, ls: seq<Label>, l: Label)
    requires CanRun(w, ls) && Enabled(After(w, ls), l)
    ensures CanRun(w, ls + [l]) && After(w, ls + [l]) == Step(After(w, ls), l)
  {
    var w' := After(w, ls);
    assert [l][1..] == [];
    assert CanRun(Step(w', l), []) && After(Step(w', l), []) == Step(w', l);
    assert CanRun(w', [l]) && After(w', [l]) == Step(w', l);
    RunsCompose(w, ls, [l]);
  }

  const FIRST := Snapshot(0, 0)

  // A world with one letter and two processes, at time `now`.
  function Two(now: int, letter: Letter, a: Process, b: Process): World {
    World(now, [letter], [a, b], multiset{})
  }

  function Queued(now: int): Letter {
    Letter(Pending, 0, now, 0, 0, 0, now)
  }

  lemma FirstFetches(now: int)
    ensures CanRun(Start(2, now), TWO_DISPATCHERS[..3])
    ensures After(Start(2, now), TWO_DISPATCHERS[..3]) == Two(now, Queued(now), Draining([FIRST], Nothing), Idle)
  {
    hide CanRun, After, Batch;
    var ls, w0, letter := TWO_DISPATCHERS, Start(2, now), Queued(now);
    NoStepYet(w0, ls);
    BothDue(letter, now);
    Advance(w0, ls, 0, w0, Two(now, letter, Idle, Idle));
    Advance(w0, ls, 1, Two(now, letter, Idle, Idle), Two(now, letter, Fetching, Idle));
    Advance(w0, ls, 2, Two(now, letter, Fetching, Idle), Two(now, letter, Draining([FIRST], Nothing), Idle));
  }

  lemma BothFetch(now: int)
    ensures CanRun(Start(2, now), TWO_DISPATCHERS[..5])
    ensures After(Start(2, now), TWO_DISPATCHERS[..5])
            == Two(now, Queued(now), Draining([FIRST], Nothing), Draining([FIRST], Nothing))
  {
    hide CanRun, After, Batch;
    var ls, w0, letter := TWO_DISPATCHERS, Start(2, now), Queued(now);
    FirstFetches(now);
    BothDue(letter, now);
    Advance(w0, ls, 3, Two(now, letter, Draining([FIRST], Nothing), Idle),
            Two(now, letter, Draining([FIRST], Nothing), Fetching));
    Advance(w0, ls, 4, Two(now, letter, Draining([FIRST], Nothing), Fetching),
      Two(now, letter, Draining([FIRST], Nothing), Draining([FIRST], Nothing)));
  }

  lemma TwoDispatchersHurry(now: int)
    ensures CanRun(Start(2, now), TWO_DISPATCHERS)
    ensures var w := After(Start(2, now), TWO_DISPATCHERS);
            ClaimSucceeds(w, Claim(1), 0) && w.now < w.letters[0].notBefore
  {
    hide CanRun, After, Batch;
    var ls, w0, letter := TWO_DISPATCHERS, Start(2, now), Queued(now);
    BothFetch(now);
    var other := Draining([FIRST], Nothing);
    var w5 := Two(now, letter, Draining([FIRST], Nothing), other);
    var w6 := Two(now, letter.(status := Sending), Draining([], InFlight(FIRST)), other);
    var w7 := Two(now, letter.(status := Sending), Draining([], Undelivered(FIRST)), other);
    var w8 := Two(now, Letter(Pending, 1, now + MINUTE, 0, 0, 0, now + MINUTE), Draining([], Nothing), other);
    assert [FIRST][1..] == [];
    Advance(w0, ls, 5, w5, w6);
    Advance(w0, ls, 6, w6, w7);
    Advance(w0, ls, 7, w7, w8);
    assert ls[..8] == ls;
  }

  lemma NoStepYet(w: World, ls: seq<Label>)
    ensures CanRun(w, ls[..0]) && After(w, ls[..0]) == w
  {
  }

  lemma BothDue(letter: Letter, now: int)
    requires letter.status == Pending && letter.nextAttemptAt == now && letter.attempts == 0
    ensures Batch([letter], now) == [Snapshot(0, 0)]
  {
    assert Due([letter], now, 0) == [];
  }

  lemma Advance(w: World, ls: seq<Label>, n: nat, here: World, there: World)
    requires n < |ls| && CanRun(w, ls[..n]) && After(w, ls[..n]) == here
    requires Enabled(here, ls[n]) && Step(here, ls[n]) == there
    ensures CanRun(w, ls[..n + 1]) && After(w, ls[..n + 1]) == there
  {
    assert ls[..n + 1] == ls[..n] + [ls[n]];
    OneStep(w, ls[..n], ls[n]);
  }
}
