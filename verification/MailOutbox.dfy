/** mail_outbox and the processes that drain it: any number of processes, each
    able to crash at any point or lose a write, and an admin who may press
    "send again" at any time. */
module MailOutbox {

  const MINUTE := 60_000
  const BACKOFF_MS: seq<int> := [MINUTE, 5 * MINUTE, 15 * MINUTE, 60 * MINUTE, 6 * 60 * MINUTE]
  const STUCK_AFTER_MS := 5 * MINUTE
  const BATCH_SIZE := 20

  // Deleted stands for a row that is no longer there.
  datatype MailStatus = Pending | Sending | Sent | Failed | Skipped | Deleted

  // The first three fields are columns. The rest is history, which no step
  // reads: copies handed to SMTP, events that excuse another copy, releases
  // of a letter somebody was still busy with, and the earliest moment the
  // last recorded failure allows another attempt.
  datatype Letter = Letter(status: MailStatus, attempts: int, nextAttemptAt: int,
                           copies: nat, excuses: nat, early: nat, notBefore: int)

  // A letter as a process loaded it; its columns may have moved on since.
  datatype Snapshot = Snapshot(id: nat, attempts: int)

  // What a process has in hand: claimed and being sent, accepted by SMTP but
  // not yet marked, or failed and about to be rescheduled.
  datatype Hand = Nothing | InFlight(letter: Snapshot) | Delivered(letter: Snapshot) | Undelivered(letter: Snapshot)

  // A process drains once at a time: release what is stuck, fetch what is
  // due, then take the letters one after another.
  datatype Process = Idle | Fetching | Draining(queue: seq<Snapshot>, hand: Hand)

  datatype World = World(now: int, letters: seq<Letter>, procs: seq<Process>, retrying: multiset<nat>)

  datatype Label =
    | Tick(to: int)
    | Enqueue(configured: bool)
    | Release(i: nat) | Fetch(i: nat) | Claim(i: nat) | Finish(i: nat)
    | Deliver(i: nat) | Refuse(i: nat)
    | MarkSent(i: nat) | LoseSent(i: nat)
    | Reschedule(i: nat) | LoseReschedule(i: nat)
    | Abort(i: nat) | Crash(i: nat)
    | RetryRead(id: nat) | RetryWrite(id: nat)
    | ClearSettled

  predicate Stuck(letter: Letter, now: int) {
    letter.status == Sending && letter.nextAttemptAt <= now - STUCK_AFTER_MS
  }

  predicate IsDue(letter: Letter, now: int) {
    letter.status == Pending && letter.nextAttemptAt <= now
  }

  // The due letters among the first n, in id order.
  function Due(letters: seq<Letter>, now: int, n: nat): seq<Snapshot>
    requires n <= |letters|
  {
    if n == 0 then []
    else Due(letters, now, n - 1)
           + if IsDue(letters[n - 1], now) then [Snapshot(n - 1, letters[n - 1].attempts)] else []
  }

  function Batch(letters: seq<Letter>, now: int): seq<Snapshot> {
    var due := Due(letters, now, |letters|);
    if |due| <= BATCH_SIZE then due else due[..BATCH_SIZE]
  }

  // The row a failed attempt leaves: the delay for this failure, or, when the
  // table of delays has run out, the end.
  function Rescheduled(letter: Letter, snapshot: Snapshot, now: int): Letter
    requires snapshot.attempts >= 0
  {
    var attempts := snapshot.attempts + 1;
    if attempts - 1 >= |BACKOFF_MS| then letter.(status := Failed, attempts := attempts)
    else letter.(status := Pending, attempts := attempts,
                 nextAttemptAt := now + BACKOFF_MS[attempts - 1], notBefore := now + BACKOFF_MS[attempts - 1])
  }

  // Writing to a row that has been deleted affects nothing.
  function Write(letter: Letter, row: Letter): Letter {
    if letter.status == Deleted then letter else row
  }

  predicate Busy(p: Process, id: nat) {
    p.Draining? && p.hand != Nothing && p.hand.letter.id == id
  }

  function Released(letter: Letter, now: int, busy: bool): Letter {
    if Stuck(letter, now) then letter.(status := Pending, early := letter.early + if busy then 1 else 0) else letter
  }

  predicate AnyBusy(procs: seq<Process>, id: nat) {
    exists i :: 0 <= i < |procs| && Busy(procs[i], id)
  }

  predicate Holding(w: World, i: nat) {
    i < |w.procs| && w.procs[i].Draining? && w.procs[i].hand != Nothing && w.procs[i].hand.letter.id < |w.letters|
  }

  predicate Enabled(w: World, l: Label) {
    match l
    case Tick(to) => w.now <= to
    case Enqueue(_) => true
    case Release(i) => i < |w.procs| && w.procs[i] == Idle
    case Fetch(i) => i < |w.procs| && w.procs[i] == Fetching
    case Claim(i) => i < |w.procs| && w.procs[i].Draining? && w.procs[i].hand == Nothing && w.procs[i].queue != []
                     && w.procs[i].queue[0].id < |w.letters|
    case Finish(i) => i < |w.procs| && w.procs[i] == Draining([], Nothing)
    case Deliver(i) => Holding(w, i) && w.procs[i].hand.InFlight?
    case Refuse(i) => Holding(w, i) && w.procs[i].hand.InFlight?
    case MarkSent(i) => Holding(w, i) && w.procs[i].hand.Delivered?
    case LoseSent(i) => Holding(w, i) && w.procs[i].hand.Delivered?
    case Reschedule(i) => Holding(w, i) && w.procs[i].hand.Undelivered? && w.procs[i].hand.letter.attempts >= 0
    case LoseReschedule(i) => Holding(w, i) && w.procs[i].hand.Undelivered?
    case Abort(i) => i < |w.procs| && (w.procs[i] == Fetching || (w.procs[i].Draining? && w.procs[i].hand == Nothing))
    case Crash(i) => i < |w.procs| && (w.procs[i].Draining? && w.procs[i].hand != Nothing ==> Holding(w, i))
    case RetryRead(id) => id < |w.letters| && w.letters[id].status != Sending && w.letters[id].status != Deleted
    case RetryWrite(id) => id < |w.letters| && id in w.retrying
    case ClearSettled => true
  }

  // A process's step replaces the process and at most one letter.
  function Act(w: World, i: nat, p: Process): World
    requires i < |w.procs|
  {
    w.(procs := w.procs[i := p])
  }

  function ActOn(w: World, i: nat, p: Process, id: nat, letter: Letter): World
    requires i < |w.procs| && id < |w.letters|
  {
    w.(procs := w.procs[i := p], letters := w.letters[id := letter])
  }

  function Step(w: World, l: Label): World
    requires Enabled(w, l)
  {
    match l
    case Tick(to) => w.(now := to)
    case Enqueue(configured) =>
      w.(letters := w.letters + [Letter(if configured then Pending else Skipped, 0, w.now, 0, 0, 0, w.now)])
    case Release(i) =>
      Act(w, i, Fetching).(letters := seq(|w.letters|, id requires 0 <= id < |w.letters| =>
        Released(w.letters[id], w.now, AnyBusy(w.procs, id))))
    case Fetch(i) => Act(w, i, Draining(Batch(w.letters, w.now), Nothing))
    case Claim(i) =>
      var p := w.procs[i];
      var s := p.queue[0];
      var row := w.letters[s.id];
      if row.status == Pending then
        ActOn(w, i, Draining(p.queue[1..], InFlight(s)), s.id, row.(status := Sending, nextAttemptAt := w.now))
      else
        Act(w, i, Draining(p.queue[1..], Nothing))
    case Finish(i) => Act(w, i, Idle)
    case Deliver(i) =>
      var p := w.procs[i];
      var row := w.letters[p.hand.letter.id];
      ActOn(w, i, p.(hand := Delivered(p.hand.letter)), p.hand.letter.id, row.(copies := row.copies + 1))
    case Refuse(i) => Act(w, i, w.procs[i].(hand := Undelivered(w.procs[i].hand.letter)))
    case MarkSent(i) =>
      var p := w.procs[i];
      var row := w.letters[p.hand.letter.id];
      ActOn(w, i, p.(hand := Nothing), p.hand.letter.id,
            Write(row, row.(status := Sent, attempts := p.hand.letter.attempts + 1)))
    case LoseSent(i) =>
      var p := w.procs[i];
      var row := w.letters[p.hand.letter.id];
      ActOn(w, i, p.(hand := Undelivered(p.hand.letter)), p.hand.letter.id, row.(excuses := row.excuses + 1))
    case Reschedule(i) =>
      var p := w.procs[i];
      var row := w.letters[p.hand.letter.id];
      ActOn(w, i, p.(hand := Nothing), p.hand.letter.id, Write(row, Rescheduled(row, p.hand.letter, w.now)))
    case LoseReschedule(i) => Act(w, i, Idle)
    case Abort(i) => Act(w, i, Idle)
    case Crash(i) =>
      if Holding(w, i) && w.procs[i].hand.Delivered? then
        var row := w.letters[w.procs[i].hand.letter.id];
        ActOn(w, i, Idle, w.procs[i].hand.letter.id, row.(excuses := row.excuses + 1))
      else
        Act(w, i, Idle)
    case RetryRead(id) => w.(retrying := w.retrying + multiset{id})
    case RetryWrite(id) =>
      var row := w.letters[id];
      w.(retrying := w.retrying - multiset{id},
         letters := w.letters[id := Write(row, row.(status := Pending, attempts := 0, nextAttemptAt := w.now,
                                                    excuses := row.excuses + 1, notBefore := w.now))])
    case ClearSettled =>
      w.(letters := seq(|w.letters|, id requires 0 <= id < |w.letters| =>
        if w.letters[id].status in {Sent, Skipped} then w.letters[id].(status := Deleted) else w.letters[id]))
  }

  predicate CanRun(w: World, ls: seq<Label>)
    decreases |ls|
  {
    ls == [] || (Enabled(w, ls[0]) && CanRun(Step(w, ls[0]), ls[1..]))
  }

  function After(w: World, ls: seq<Label>): World
    requires CanRun(w, ls)
    decreases |ls|
  {
    if ls == [] then w else After(Step(w, ls[0]), ls[1..])
  }

  // An empty outbox and n processes doing nothing.
  function Start(n: nat, now: int): World {
    World(now, [], seq(n, i => Idle), multiset{})
  }

  // ---- how many attempts a letter can have behind it ----

  predicate AttemptsOk(letter: Letter) {
    match letter.status
    case Pending => 0 <= letter.attempts <= 5
    case Sending => 0 <= letter.attempts <= 5
    case Failed => letter.attempts == 6
    case Sent => 0 <= letter.attempts <= 6
    case Skipped => letter.attempts == 0
    case Deleted => true
  }

  predicate SnapshotOk(n: nat, s: Snapshot) {
    s.id < n && 0 <= s.attempts <= 5
  }

  predicate ProcessOk(n: nat, p: Process) {
    p.Draining? ==>
      (forall s :: s in p.queue ==> SnapshotOk(n, s)) && (p.hand != Nothing ==> SnapshotOk(n, p.hand.letter))
  }

  predicate AttemptsBounded(w: World) {
    && (forall id :: 0 <= id < |w.letters| ==> AttemptsOk(w.letters[id]))
    && (forall i :: 0 <= i < |w.procs| ==> ProcessOk(|w.letters|, w.procs[i]))
  }

  lemma {:induction false} DueAre(letters: seq<Letter>, now: int, n: nat)
    requires n <= |letters|
    ensures forall s :: s in Due(letters, now, n) ==>
              s.id < n && IsDue(letters[s.id], now) && s.attempts == letters[s.id].attempts
    ensures forall id :: 0 <= id < n && IsDue(letters[id], now) ==>
              Snapshot(id, letters[id].attempts) in Due(letters, now, n)
    ensures forall a, b :: 0 <= a < b < |Due(letters, now, n)| ==>
              Due(letters, now, n)[a].id < Due(letters, now, n)[b].id
  {
    if n > 0 {
      DueAre(letters, now, n - 1);
      var before := Due(letters, now, n - 1);
      forall a | 0 <= a < |before| ensures before[a].id < n - 1 {
        assert before[a] in before;
      }
    }
  }

  lemma BatchAre(letters: seq<Letter>, now: int)
    ensures forall s :: s in Batch(letters, now) ==>
              s.id < |letters| && IsDue(letters[s.id], now) && s.attempts == letters[s.id].attempts
    ensures forall a, b :: 0 <= a < b < |Batch(letters, now)| ==> Batch(letters, now)[a].id < Batch(letters, now)[b].id
  {
    DueAre(letters, now, |letters|);
  }

  // Five delays, so the sixth failure is the last: whatever the processes
  // had loaded and however stale it was, a waiting letter has at most five
  // attempts behind it and a dead one exactly six.
  lemma AttemptsKept(w: World, l: Label)
    requires AttemptsBounded(w) && Enabled(w, l)
    ensures AttemptsBounded(Step(w, l))
  {
    hide Step, Enabled, AttemptsOk, ProcessOk;
    LetterAttemptsKept(w, l);
    ProcessesKept(w, l);
  }

  lemma LetterAttemptsKept(w: World, l: Label)
    requires AttemptsBounded(w) && Enabled(w, l)
    ensures |Step(w, l).letters| >= |w.letters|
    ensures forall id :: 0 <= id < |Step(w, l).letters| ==> AttemptsOk(Step(w, l).letters[id])
  {
  }

  lemma ProcessesKept(w: World, l: Label)
    requires AttemptsBounded(w) && Enabled(w, l)
    ensures forall i :: 0 <= i < |Step(w, l).procs| ==> ProcessOk(|Step(w, l).letters|, Step(w, l).procs[i])
  {
    hide Batch, AnyBusy, AttemptsOk, Rescheduled, Write, Released, IsDue;
    match l {
      case Fetch(i) => BatchOk(w);
      case Claim(i) => RestOk(|w.letters|, w.procs[i].queue);
      case Enqueue(_) =>
        forall i | 0 <= i < |w.procs| ensures ProcessOk(|w.letters| + 1, w.procs[i]) {
          assert ProcessOk(|w.letters|, w.procs[i]);
        }
      case _ =>
    }
  }

  lemma RestOk(n: nat, queue: seq<Snapshot>)
    requires queue != [] && forall s :: s in queue ==> SnapshotOk(n, s)
    ensures SnapshotOk(n, queue[0]) && forall s :: s in queue[1..] ==> SnapshotOk(n, s)
  {
  }

  lemma BatchOk(w: World)
    requires AttemptsBounded(w)
    ensures forall s :: s in Batch(w.letters, w.now) ==> SnapshotOk(|w.letters|, s)
  {
    hide Batch;
    BatchAre(w.letters, w.now);
  }

  lemma {:induction false} AttemptsAlwaysBounded(w: World, ls: seq<Label>)
    requires AttemptsBounded(w) && CanRun(w, ls)
    ensures AttemptsBounded(After(w, ls))
    decreases |ls|
  {
    if ls != [] {
      AttemptsKept(w, ls[0]);
      AttemptsAlwaysBounded(Step(w, ls[0]), ls[1..]);
    }
  }
}
