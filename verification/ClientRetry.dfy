/** The browser's HTTP client: any number of requests at once, one shared
    refresh, one retry each. */
module ClientRetry {
  import opened Wrappers

  // What an answer means to the interceptor: fine; 401; the 400 that means
  // the server saw neither token nor guest; any other failure.
  datatype Answer = Fine | Unauthorized | NoIdentity | OtherError

  // Where a request is: on the wire; waiting for the n-th refresh, knowing
  // whether a failed one still lets it go out as a guest; or over.
  datatype Stage = OnTheWire | Waiting(refresh: nat, guestFallback: bool) | Over(ok: bool)

  // `retried` is the `_retry` flag, `bearer` whether an Authorization header
  // is on, `sends` how often the request has gone out. The last three
  // are history: the header's presence at each send, the answer to each, and
  // the refresh waited for in between.
  datatype Request = Request(stage: Stage, retried: bool, bearer: bool, sends: nat,
                             bearers: seq<bool>, answers: seq<Answer>, waitedFor: Option<nat>)

  // `signedIn`: the store holds an access token. `pending`: the shared
  // promise is set. `started` counts refresh calls, `outcomes` lists what the
  // settled ones gave.
  datatype Client = Client(requests: seq<Request>, signedIn: bool, pending: bool, started: nat, outcomes: seq<bool>)

  // `Refresh` is the support socket asking for one after a refused connection;
  // `SignOut` is the button.
  datatype Label =
    | Send | SignIn | SignOut | Refresh
    | Respond(r: nat, answer: Answer) | Settle(ok: bool) | Resume(r: nat)

  predicate AsksForRefresh(request: Request, answer: Answer) {
    (answer == Unauthorized || (answer == NoIdentity && request.bearer)) && !request.retried
  }

  predicate Enabled(c: Client, l: Label) {
    match l
    case Send => true
    case SignIn => true
    case SignOut => true
    case Refresh => true
    case Respond(r, _) => r < |c.requests| && c.requests[r].stage == OnTheWire
    case Settle(_) => c.pending
    case Resume(r) => r < |c.requests| && c.requests[r].stage.Waiting? && c.requests[r].stage.refresh < |c.outcomes|
  }

  // The interceptor puts on whatever the store says at the moment of sending.
  function Resent(request: Request, signedIn: bool): Request {
    request.(stage := OnTheWire, bearer := signedIn, sends := request.sends + 1,
             bearers := request.bearers + [signedIn])
  }

  // A failed refresh signs the visitor out; the request that got there by
  // having no identity is then tried once more as a guest.
  function Resumed(c: Client, r: nat): Client
    requires Enabled(c, Resume(r))
  {
    var request := c.requests[r];
    if c.outcomes[request.stage.refresh] then
      c.(requests := c.requests[r := Resent(request, c.signedIn)])
    else if request.stage.guestFallback then
      c.(signedIn := false, requests := c.requests[r := Resent(request, false)])
    else
      c.(signedIn := false, requests := c.requests[r := request.(stage := Over(false))])
  }

  // Joins the refresh in flight, or starts one.
  function Refreshing(c: Client): Client {
    if c.pending then c else c.(pending := true, started := c.started + 1)
  }

  function Responded(c: Client, r: nat, answer: Answer): Client
    requires Enabled(c, Respond(r, answer))
  {
    var request := c.requests[r].(answers := c.requests[r].answers + [answer]);
    if AsksForRefresh(request, answer) then
      var c' := Refreshing(c);
      c'.(requests := c.requests[r := request.(retried := true, stage := Waiting(|c.outcomes|, answer == NoIdentity),
                                               waitedFor := Some(|c.outcomes|))])
    else
      c.(requests := c.requests[r := request.(stage := Over(answer == Fine))])
  }

  function FirstSend(signedIn: bool): Request {
    Request(OnTheWire, false, signedIn, 1, [signedIn], [], None)
  }

  function Step(c: Client, l: Label): Client
    requires Enabled(c, l)
  {
    match l
    case Send => c.(requests := c.requests + [FirstSend(c.signedIn)])
    case SignIn => c.(signedIn := true)
    case SignOut => c.(signedIn := false)
    case Refresh => Refreshing(c)
    case Respond(r, answer) => Responded(c, r, answer)
    case Settle(ok) => c.(pending := false, outcomes := c.outcomes + [ok], signedIn := c.signedIn || ok)
    case Resume(r) => Resumed(c, r)
  }

  predicate CanRun(c: Client, ls: seq<Label>)
    decreases |ls|
  {
    ls == [] || (Enabled(c, ls[0]) && CanRun(Step(c, ls[0]), ls[1..]))
  }

  function After(c: Client, ls: seq<Label>): Client
    requires CanRun(c, ls)
    decreases |ls|
  {
    if ls == [] then c else After(Step(c, ls[0]), ls[1..])
  }

  const IDLE := Client([], false, false, 0, [])

  // ---- one refresh at a time, two sends at most ----

  predicate RequestOk(c: Client, request: Request) {
    && 1 <= request.sends <= 2
    && (!request.retried ==> request.sends == 1)
    && (request.stage.Waiting? ==> request.retried && request.sends == 1 && request.stage.refresh < c.started)
  }

  // Refresh calls in flight: those started and not settled.
  function InFlight(c: Client): int {
    c.started - |c.outcomes|
  }

  predicate ClientOk(c: Client) {
    && InFlight(c) == (if c.pending then 1 else 0)
    && forall r :: 0 <= r < |c.requests| ==> RequestOk(c, c.requests[r])
  }

  lemma StepOk(c: Client, l: Label)
    requires ClientOk(c) && Enabled(c, l)
    ensures ClientOk(Step(c, l))
  {
  }

  // In any run: never two refreshes in flight, never a third send.
  lemma {:induction false} AtMostTwice(ls: seq<Label>)
    requires CanRun(IDLE, ls)
    ensures InFlight(After(IDLE, ls)) <= 1
    ensures forall request :: request in After(IDLE, ls).requests ==> request.sends <= 2
  {
    RunOk(IDLE, ls);
  }

  lemma {:induction false} RunOk(c: Client, ls: seq<Label>)
    requires ClientOk(c) && CanRun(c, ls)
    ensures ClientOk(After(c, ls))
    decreases |ls|
  {
    if ls != [] {
      StepOk(c, ls[0]);
      RunOk(Step(c, ls[0]), ls[1..]);
    }
  }

  // ---- what becomes of a request ----

  // Answered 401, or, having carried a token, as nobody's.
  predicate NeedsRefresh(request: Request) {
    request.answers != [] && request.bearers != []
    && (request.answers[0] == Unauthorized || (request.answers[0] == NoIdentity && request.bearers[0]))
  }

  // A request's whole story, told from what was sent, what was answered and
  // how the refresh it waited for came out.
  predicate StoryOk(c: Client, request: Request) {
    && 1 <= |request.bearers| <= 2 && |request.answers| <= |request.bearers|
    && request.sends == |request.bearers| && request.bearer == request.bearers[|request.bearers| - 1]
    && (request.retried <==> request.waitedFor.Some?)
    && (request.waitedFor.Some? <==> NeedsRefresh(request))
    && (request.stage.Waiting? ==>
          && request.waitedFor == Some(request.stage.refresh) && |request.bearers| == |request.answers| == 1
          && request.stage.guestFallback == (request.answers[0] == NoIdentity))
    && if request.waitedFor.None? then Concluded(request, 0)
       else if request.stage.Waiting? then true
       else request.waitedFor.value < |c.outcomes| && Resolved(request, c.outcomes[request.waitedFor.value])
  }

  // The k-th send is the last: the request is on the wire until it is
  // answered, and then over, well if and only if the answer was fine.
  predicate Concluded(request: Request, k: nat) {
    && |request.bearers| == k + 1 && |request.answers| >= k
    && request.stage == if |request.answers| == k then OnTheWire else Over(request.answers[k] == Fine)
  }

  // After a refresh that succeeded the request goes out again. After one that
  // failed it does so only as a guest, without a token, and only if it got
  // there by having no identity; otherwise it is over, and has failed.
  predicate Resolved(request: Request, refreshed: bool)
    requires request.answers != []
  {
    if refreshed then Concluded(request, 1)
    else if request.answers[0] == NoIdentity then Concluded(request, 1) && !request.bearers[1]
    else request.stage == Over(false) && |request.bearers| == |request.answers| == 1
  }

  predicate StoriesOk(c: Client) {
    && |c.outcomes| <= c.started && (c.pending ==> |c.outcomes| < c.started)
    && forall r :: 0 <= r < |c.requests| ==> StoryOk(c, c.requests[r])
  }

  lemma StepTells(c: Client, l: Label)
    requires StoriesOk(c) && Enabled(c, l)
    ensures StoriesOk(Step(c, l))
  {
    var after := Step(c, l);
    match l {
      case Respond(r, answer) => AnswerTells(c, r, answer);
      case Resume(r) => ResumeTells(c, r);
      case _ =>
        forall r | 0 <= r < |after.requests| ensures StoryOk(after, after.requests[r]) {
          if r < |c.requests| {
            assert StoryOk(c, c.requests[r]);
          }
        }
    }
  }

  lemma AnswerTells(c: Client, r: nat, answer: Answer)
    requires StoriesOk(c) && Enabled(c, Respond(r, answer))
    ensures StoriesOk(Step(c, Respond(r, answer)))
  {
    var after := Step(c, Respond(r, answer));
    assert StoryOk(c, c.requests[r]);
    AnsweredStory(c, r, answer);
    forall k | 0 <= k < |after.requests| ensures StoryOk(after, after.requests[k]) {
      if k != r {
        assert StoryOk(c, c.requests[k]) && after.requests[k] == c.requests[k];
        SameOutcomes(c, after, c.requests[k]);
      }
    }
    hide StoryOk, Responded;
    StartedFollows(c, r, answer);
  }

  lemma SameOutcomes(c: Client, after: Client, request: Request)
    requires StoryOk(c, request) && after.outcomes == c.outcomes
    ensures StoryOk(after, request)
  {
  }

  lemma StartedFollows(c: Client, r: nat, answer: Answer)
    requires StoriesOk(c) && Enabled(c, Respond(r, answer))
    ensures var after := Step(c, Respond(r, answer));
            && after.outcomes == c.outcomes && |after.requests| == |c.requests|
            && |after.outcomes| <= after.started && (after.pending ==> |after.outcomes| < after.started)
  {
  }

  lemma AnsweredStory(c: Client, r: nat, answer: Answer)
    requires Enabled(c, Respond(r, answer)) && StoryOk(c, c.requests[r])
    ensures StoryOk(Step(c, Respond(r, answer)), Step(c, Respond(r, answer)).requests[r])
  {
    var request, now := c.requests[r], Step(c, Respond(r, answer)).requests[r];
    assert now.answers == request.answers + [answer];
    assert request.answers != [] ==> now.answers[0] == request.answers[0];
  }

  lemma ResumeTells(c: Client, r: nat)
    requires StoriesOk(c) && Enabled(c, Resume(r))
    ensures StoriesOk(Step(c, Resume(r)))
  {
    var after := Step(c, Resume(r));
    assert StoryOk(c, c.requests[r]);
    forall k | 0 <= k < |after.requests| ensures StoryOk(after, after.requests[k]) {
      if k != r {
        assert StoryOk(c, c.requests[k]);
      }
    }
  }

  // In any run, with any number of requests and any mix of answers: every
  // request's story is one of these.
  lemma {:induction false} EveryStoryOk(c: Client, ls: seq<Label>)
    requires StoriesOk(c) && CanRun(c, ls)
    ensures StoriesOk(After(c, ls))
    decreases |ls|
  {
    if ls != [] {
      StepTells(c, ls[0]);
      EveryStoryOk(Step(c, ls[0]), ls[1..]);
    }
  }

  lemma StoriesFromIdle(ls: seq<Label>)
    requires CanRun(IDLE, ls)
    ensures forall request :: request in After(IDLE, ls).requests ==> StoryOk(After(IDLE, ls), request)
  {
    EveryStoryOk(IDLE, ls);
  }

  // A request goes out at once, and carries a token exactly if the visitor is
  // signed in; going out again, if the refresh went well, too.
  lemma SendsBear(c: Client, r: nat)
    requires StoriesOk(c) && Enabled(c, Resume(r))
    ensures var after := Step(c, Send).requests;
            && |after| == |c.requests| + 1 && after[..|c.requests|] == c.requests
            && after[|c.requests|].stage == OnTheWire && after[|c.requests|].bearers == [c.signedIn]
    ensures var after, refreshed := Step(c, Resume(r)).requests[r], c.outcomes[c.requests[r].stage.refresh];
            |after.bearers| == 2 ==> after.bearers[1] == (refreshed && c.signedIn)
  {
    assert StoryOk(c, c.requests[r]);
  }

  // Signed in by signing in or by a refresh that went well; signed out by the
  // button or by one that failed; by nothing else.
  lemma SignedInExactlyWhen(c: Client, l: Label)
    requires Enabled(c, l)
    ensures Step(c, l).signedIn
            <==> || l.SignIn? || l == Settle(true)
                 || (c.signedIn && l != SignOut && !(l.Resume? && !c.outcomes[c.requests[l.r].stage.refresh]))
  {
  }

  // ---- and it stops ----

  function Weight(request: Request): nat {
    match request.stage
    case OnTheWire => if request.retried then 1 else 4
    case Waiting(_, _) => 2
    case Over(_) => 0
  }

  function Total(requests: seq<Request>): nat {
    if requests == [] then 0 else Weight(requests[0]) + Total(requests[1..])
  }

  function Work(c: Client): nat {
    Total(c.requests) + if c.pending then 1 else 0
  }

  lemma {:induction false} TotalOfUpdate(requests: seq<Request>, r: nat, request: Request)
    requires r < |requests|
    ensures Total(requests[r := request]) == Total(requests) + Weight(request) - Weight(requests[r])
  {
    if r == 0 {
      assert requests[r := request][1..] == requests[1..];
    } else {
      assert requests[r := request][1..] == requests[1..][r - 1 := request];
      TotalOfUpdate(requests[1..], r - 1, request);
    }
  }

  lemma {:induction false} TotalOfSend(requests: seq<Request>, request: Request)
    ensures Total(requests + [request]) == Total(requests) + Weight(request)
  {
    if requests == [] {
      assert [request][1..] == [];
    } else {
      assert (requests + [request])[1..] == requests[1..] + [request];
      TotalOfSend(requests[1..], request);
    }
  }

  predicate FromOutside(l: Label) {
    l.Send? || l.SignIn? || l.SignOut? || l.Refresh?
  }

  lemma StepsRunOut(c: Client, l: Label)
    requires ClientOk(c) && Enabled(c, l)
    ensures Work(Step(c, l)) <= match l
                                case Send => Work(c) + 4
                                case SignIn => Work(c)
                                case SignOut => Work(c)
                                case Refresh => Work(c) + 1
                                case _ => Work(c) - 1
  {
    match l {
      case Send => TotalOfSend(c.requests, FirstSend(c.signedIn));
      case Respond(r, answer) => TotalOfUpdate(c.requests, r, Step(c, l).requests[r]);
      case Resume(r) => TotalOfUpdate(c.requests, r, Step(c, l).requests[r]);
      case _ =>
    }
  }

  function Sends(ls: seq<Label>): nat {
    if ls == [] then 0 else (if ls[0] == Send then 1 else 0) + Sends(ls[1..])
  }

  function Refreshes(ls: seq<Label>): nat {
    if ls == [] then 0 else (if ls[0] == Refresh then 1 else 0) + Refreshes(ls[1..])
  }

  function OwnSteps(ls: seq<Label>): nat {
    if ls == [] then 0 else (if FromOutside(ls[0]) then 0 else 1) + OwnSteps(ls[1..])
  }

  // The client takes at most four steps for each request the page makes, and
  // one for each time the socket asks for a refresh.
  lemma {:induction false} InterceptorStops(c: Client, ls: seq<Label>)
    requires ClientOk(c) && CanRun(c, ls)
    ensures OwnSteps(ls) + Work(After(c, ls)) <= Work(c) + 4 * Sends(ls) + Refreshes(ls)
    decreases |ls|
  {
    if ls != [] {
      StepOk(c, ls[0]);
      StepsRunOut(c, ls[0]);
      InterceptorStops(Step(c, ls[0]), ls[1..]);
    }
  }

  // Nor does a request hang: while one is not over, either an answer is
  // outstanding or the client has a step to take.
  lemma NothingHangs(c: Client, r: nat) returns (l: Label)
    requires ClientOk(c) && r < |c.requests| && !c.requests[r].stage.Over?
    ensures Enabled(c, l) && !FromOutside(l)
  {
    match c.requests[r].stage {
      case OnTheWire => l := Respond(r, Fine);
      case Waiting(refresh, _) => l := if refresh < |c.outcomes| then Resume(r) else Settle(true);
    }
  }
}
