/**
 Session refresh in app/static/js/api.js: `refreshSession` and the 401 branch of `apiFetch`, with any
 number of requests in progress and any answers.

 An event is one turn of the event loop: a call starts, a network answer arrives, the `finally` of a
 refresh runs, a call resumes after `await refreshSession()`. Any event sequence is a run; an event
 that does not fit the state changes nothing.
 */
module Session {
  import opened Common

  /** The refresh promise: its request is out; it has answered; `finally` has run. */
  datatype Refresh = Sent | Answered(ok: bool) | Settled(ok: bool)

  datatype Answer = NetworkError | Status(code: int)

  datatype Phase =
    | First
    | Waiting(on: nat)
    | Second
    | Done(status: int)
    | Rejected

  /** One `apiFetch` call; `joined` is the refresh it awaited, once it has awaited one. */
  datatype Request = Request(path: string, phase: Phase, joined: Option<nat>)

  datatype Message = Send(request: nat) | SendRefresh(refresh: nat)

  datatype Page = Page(
    refreshing: Option<nat>,
    refreshes: seq<Refresh>,
    requests: seq<Request>,
    wire: seq<Message>,
    announced: seq<nat>)

  datatype Event =
    | Start(path: string)
    | FirstAnswer(i: nat, answer: Answer)
    | RefreshAnswer(r: nat, answer: Answer)
    | RefreshSettles(r: nat)
    | Resume(i: nat)
    | SecondAnswer(i: nat, answer: Answer)

  const UNAUTHORIZED: int := 401

  const OPENED: Page := Page(None, [], [], [], [])

  predicate IsAuth(path: string) {
    "/auth/" <= path
  }

  predicate IsOk(answer: Answer) {
    answer.Status? && 200 <= answer.code <= 299
  }

  predicate In(w: Page, i: nat, phase: Phase) {
    i < |w.requests| && w.requests[i].phase == phase
  }

  // --- steps ----------------------------------------------------------------------------------

  function Call(w: Page, path: string): Page {
    w.(requests := w.requests + [Request(path, First, None)], wire := w.wire + [Send(|w.requests|)])
  }

  function To(w: Page, i: nat, phase: Phase): Page
    requires i < |w.requests|
  {
    w.(requests := w.requests[i := w.requests[i].(phase := phase)])
  }

  /** `refreshing ??= fetch(...)`, and the refresh to wait for. */
  function SharedRefresh(w: Page): (Page, nat) {
    if w.refreshing.Some? then (w, w.refreshing.value)
    else
      var r := |w.refreshes|;
      (w.(refreshing := Some(r), refreshes := w.refreshes + [Sent], wire := w.wire + [SendRefresh(r)]), r)
  }

  /** The call waits for `r`. */
  function Join(w: Page, i: nat, r: nat): Page
    requires i < |w.requests|
  {
    w.(requests := w.requests[i := w.requests[i].(phase := Waiting(r), joined := Some(r))])
  }

  /** Past the retry: a 401 now is announced. */
  function Conclude(w: Page, i: nat, code: int): Page
    requires i < |w.requests|
  {
    var w' := To(w, i, Done(code));
    if code == UNAUTHORIZED then w'.(announced := w'.announced + [i]) else w'
  }

  function AfterFirst(w: Page, i: nat, answer: Answer): Page
    requires i < |w.requests|
  {
    match answer
    case NetworkError => To(w, i, Rejected)
    case Status(code) =>
      if code == UNAUTHORIZED && !IsAuth(w.requests[i].path) then
        var (w', r) := SharedRefresh(w);
        Join(w', i, r)
      else To(w, i, Done(code))
  }

  function AfterRefresh(w: Page, i: nat, ok: bool): Page
    requires i < |w.requests|
  {
    if ok then To(w, i, Second).(wire := w.wire + [Send(i)]) else Conclude(w, i, UNAUTHORIZED)
  }

  function AfterSecond(w: Page, i: nat, answer: Answer): Page
    requires i < |w.requests|
  {
    match answer
    case NetworkError => To(w, i, Rejected)
    case Status(code) => Conclude(w, i, code)
  }

  function Settle(w: Page, r: nat): Page
    requires r < |w.refreshes| && w.refreshes[r].Answered?
  {
    w.(refreshing := None, refreshes := w.refreshes[r := Settled(w.refreshes[r].ok)])
  }

  function Next(w: Page, e: Event): Page {
    match e
    case Start(path) => Call(w, path)
    case FirstAnswer(i, answer) => if In(w, i, First) then AfterFirst(w, i, answer) else w
    case RefreshAnswer(r, answer) =>
      if r < |w.refreshes| && w.refreshes[r].Sent? then w.(refreshes := w.refreshes[r := Answered(IsOk(answer))]) else w
    case RefreshSettles(r) =>
      if r < |w.refreshes| && w.refreshes[r].Answered? then Settle(w, r) else w
    case Resume(i) => if CanResume(w, i) then AfterRefresh(w, i, w.refreshes[w.requests[i].phase.on].ok) else w
    case SecondAnswer(i, answer) => if In(w, i, Second) then AfterSecond(w, i, answer) else w
  }

  /** The promise the call awaits has been resolved. */
  predicate CanResume(w: Page, i: nat) {
    && i < |w.requests|
    && w.requests[i].phase.Waiting?
    && w.requests[i].phase.on < |w.refreshes|
    && w.refreshes[w.requests[i].phase.on].Settled?
  }

  function Run(w: Page, events: seq<Event>): Page {
    if events == [] then w else Next(Run(w, events[..|events| - 1]), events[|events| - 1])
  }

  /** The module with its one shared variable, and what its calls have put on the wire. */
  class Api {
    var refreshing: Option<nat>
    var refreshes: seq<Refresh>
    var requests: seq<Request>
    var wire: seq<Message>
    var announced: seq<nat>

    constructor ()
      ensures State() == OPENED
    {
      refreshing, refreshes, requests, wire, announced := None, [], [], [], [];
    }

    function State(): Page
      reads this
    {
      Page(refreshing, refreshes, requests, wire, announced)
    }

    method RefreshSession() returns (r: nat)
      modifies this`refreshing, this`refreshes, this`wire
      ensures (State(), r) == SharedRefresh(old(State()))
    {
      if refreshing.None? {
        refreshing := Some(|refreshes|);
        refreshes, wire := refreshes + [Sent], wire + [SendRefresh(|refreshes|)];
      }
      r := refreshing.value;
    }

    method SetPhase(i: nat, phase: Phase)
      requires i < |requests|
      modifies this`requests
      ensures State() == To(old(State()), i, phase)
    {
      requests := requests[i := requests[i].(phase := phase)];
    }

    method ApiFetch(path: string) returns (i: nat)
      modifies this
      ensures State() == Next(old(State()), Start(path)) && i == |old(requests)|
    {
      i := |requests|;
      requests := requests + [Request(path, First, None)];
      wire := wire + [Send(i)];
    }

    method OnResponse(i: nat, answer: Answer)
      requires In(State(), i, First)
      modifies this
      ensures State() == Next(old(State()), FirstAnswer(i, answer))
    {
      if answer.NetworkError? {
        SetPhase(i, Rejected);
      } else if answer.code == UNAUTHORIZED && !IsAuth(requests[i].path) {
        var r := RefreshSession();
        requests := requests[i := requests[i].(phase := Waiting(r), joined := Some(r))];
      } else {
        SetPhase(i, Done(answer.code));
      }
    }

    /** `.then`, `.catch` and `.finally` of the refresh whose fetch has answered. */
    method OnRefreshed(r: nat, answer: Answer)
      requires r < |refreshes| && refreshes[r].Sent?
      modifies this`refreshing, this`refreshes
      ensures State() == Next(Next(old(State()), RefreshAnswer(r, answer)), RefreshSettles(r))
    {
      var ok := answer.Status? && 200 <= answer.code <= 299;
      refreshes := refreshes[r := Answered(ok)];
      refreshing, refreshes := None, refreshes[r := Settled(ok)];
    }

    method OnRefreshResult(i: nat)
      requires CanResume(State(), i)
      modifies this
      ensures State() == Next(old(State()), Resume(i))
    {
      if refreshes[requests[i].phase.on].ok {
        wire := wire + [Send(i)];
        SetPhase(i, Second);
      } else {
        SetPhase(i, Done(UNAUTHORIZED));
        announced := announced + [i];
      }
    }

    method OnRetryResponse(i: nat, answer: Answer)
      requires In(State(), i, Second)
      modifies this
      ensures State() == Next(old(State()), SecondAnswer(i, answer))
    {
      if answer.NetworkError? {
        SetPhase(i, Rejected);
      } else {
        SetPhase(i, Done(answer.code));
        if answer.code == UNAUTHORIZED {
          announced := announced + [i];
        }
      }
    }
  }

  // --- the invariant --------------------------------------------------------------------------

  function Sends(w: Page, i: nat): nat {
    multiset(w.wire)[Send(i)]
  }

  function Announcements(w: Page, i: nat): nat {
    multiset(w.announced)[i]
  }

  /** The refresh the call waited for came back good. */
  predicate Renewed(w: Page, q: Request) {
    q.joined.Some? && q.joined.value < |w.refreshes| && w.refreshes[q.joined.value] == Settled(true)
  }

  predicate Refused(w: Page, q: Request) {
    q.joined.Some? && q.joined.value < |w.refreshes| && w.refreshes[q.joined.value] == Settled(false)
  }

  predicate RequestInv(w: Page, i: nat)
    requires i < |w.requests|
  {
    var q := w.requests[i];
    && (q.joined.Some? ==> q.joined.value < |w.refreshes| && !IsAuth(q.path))
    && Announcements(w, i) == (if q.phase == Done(UNAUTHORIZED) && !IsAuth(q.path) then 1 else 0)
    && match q.phase
       case First => q.joined.None? && Sends(w, i) == 1
       case Waiting(r) => q.joined == Some(r) && Sends(w, i) == 1
       case Second => Renewed(w, q) && Sends(w, i) == 2
       case Rejected => (q.joined.None? && Sends(w, i) == 1) || (Renewed(w, q) && Sends(w, i) == 2)
       case Done(code) =>
         || (q.joined.None? && Sends(w, i) == 1 && (code == UNAUTHORIZED ==> IsAuth(q.path)))
         || (Refused(w, q) && Sends(w, i) == 1 && code == UNAUTHORIZED)
         || (Renewed(w, q) && Sends(w, i) == 2)
  }

  predicate SingleFlight(w: Page) {
    && (w.refreshing.Some? ==> w.refreshing.value < |w.refreshes|)
    && forall r :: 0 <= r < |w.refreshes| ==> (!w.refreshes[r].Settled? <==> w.refreshing == Some(r))
  }

  /** Nothing was sent or announced under number `i`. */
  predicate Silent(w: Page, i: nat) {
    Send(i) !in w.wire && i !in w.announced
  }

  function Joiners(w: Page): set<nat> {
    set i: nat | i < |w.requests| && w.requests[i].joined.Some?
  }

  ghost predicate Inv(w: Page) {
    Core(w) && |w.refreshes| <= |Joiners(w)|
  }

  ghost predicate Core(w: Page) {
    && SingleFlight(w)
    && (forall i: nat :: i < |w.requests| ==> RequestInv(w, i))
    && (forall i: nat :: i >= |w.requests| ==> Silent(w, i))
    && (forall r: nat :: multiset(w.wire)[SendRefresh(r)] == if r < |w.refreshes| then 1 else 0)
  }

  lemma JoinersStay(w: Page, w2: Page)
    requires |w2.requests| >= |w.requests|
    requires forall i :: 0 <= i < |w.requests| ==> w2.requests[i].joined == w.requests[i].joined
    ensures |Joiners(w)| <= |Joiners(w2)|
  {
    assert Joiners(w) <= Joiners(w2);
    SubsetSize(Joiners(w), Joiners(w2));
  }

  lemma JoinersGrow(w: Page, i: nat, r: nat)
    requires i < |w.requests| && w.requests[i].joined.None?
    ensures |Joiners(Join(w, i, r))| == |Joiners(w)| + 1
  {
    var before, after := Joiners(w), Joiners(Join(w, i, r));
    forall k: nat ensures k in after <==> k in before + {i} {
      assert k < |w.requests| && k != i ==> Join(w, i, r).requests[k] == w.requests[k];
    }
    assert after == before + {i};
  }

  lemma SharedRefreshKeepsCore(w: Page)
    requires Core(w)
    ensures var (w1, r) := SharedRefresh(w);
            && Core(w1) && r < |w1.refreshes| <= |w.refreshes| + 1
            && w1.refreshing == Some(r) && w1.requests == w.requests
  {
    var (w1, r) := SharedRefresh(w);
    forall k: nat | k < |w1.requests| ensures RequestInv(w1, k) {
      assert RequestInv(w, k);
    }
    forall k: nat | k >= |w1.requests| ensures Silent(w1, k) {
      assert Silent(w, k);
    }
  }

  /** Call `i` gets its first answer and moves to `q`; nothing is sent or announced. */
  lemma LeaveFirstKeepsCore(w: Page, i: nat, q: Request)
    requires Core(w) && In(w, i, First)
    requires RequestInv(w.(requests := w.requests[i := q]), i)
    ensures Core(w.(requests := w.requests[i := q]))
  {
    var w2 := w.(requests := w.requests[i := q]);
    forall k: nat | k < |w2.requests| ensures RequestInv(w2, k) {
      assert RequestInv(w, k);
    }
    forall k: nat | k >= |w2.requests| ensures Silent(w2, k) {
      assert Silent(w, k);
    }
  }

  lemma FirstAnswerKeepsInv(w: Page, i: nat, answer: Answer)
    requires Inv(w) && In(w, i, First)
    ensures Inv(AfterFirst(w, i, answer))
  {
    var w2 := AfterFirst(w, i, answer);
    if answer.Status? && answer.code == UNAUTHORIZED && !IsAuth(w.requests[i].path) {
      var (w1, r) := SharedRefresh(w);
      SharedRefreshKeepsCore(w);
      assert RequestInv(w1, i);
      JoinersGrow(w1, i, r);
      assert Joiners(w1) == Joiners(w);
      LeaveFirstKeepsCore(w1, i, w2.requests[i]);
    } else {
      JoinersStay(w, w2);
      assert RequestInv(w, i);
      LeaveFirstKeepsCore(w, i, w2.requests[i]);
    }
  }

  lemma RefreshKeepsInv(w: Page, e: Event)
    requires Inv(w) && (e.RefreshAnswer? || e.RefreshSettles?)
    ensures Inv(Next(w, e))
  {
    var w2 := Next(w, e);
    JoinersStay(w, w2);
    forall k: nat | k < |w2.requests| ensures RequestInv(w2, k) {
      assert RequestInv(w, k);
    }
    forall k: nat | k >= |w2.requests| ensures Silent(w2, k) {
      assert Silent(w, k);
    }
  }

  lemma StartKeepsInv(w: Page, path: string)
    requires Inv(w)
    ensures Inv(Call(w, path))
  {
    var w2 := Call(w, path);
    var n := |w.requests|;
    assert Silent(w, n);
    JoinersStay(w, w2);
    forall k: nat | k < |w2.requests| ensures RequestInv(w2, k) {
      if k < n {
        assert RequestInv(w, k);
      }
    }
    forall k: nat | k >= |w2.requests| ensures Silent(w2, k) {
      assert Silent(w, k);
    }
  }

  /** Only call `i` moves; `sent` and `told` are what it adds to the wire and to the announcements. */
  lemma MoveKeepsInv(w: Page, w2: Page, i: nat, sent: seq<Message>, told: seq<nat>)
    requires Inv(w) && i < |w.requests| && |w2.requests| == |w.requests|
    requires w2 == w.(requests := w2.requests, wire := w.wire + sent, announced := w.announced + told)
    requires w2.requests == w.requests[i := w.requests[i].(phase := w2.requests[i].phase)]
    requires sent in {[], [Send(i)]} && told in {[], [i]}
    requires RequestInv(w2, i)
    ensures Inv(w2)
  {
    JoinersStay(w, w2);
    forall k: nat | k < |w2.requests| ensures RequestInv(w2, k) {
      assert RequestInv(w, k);
    }
    forall k: nat | k >= |w2.requests| ensures Silent(w2, k) {
      assert Silent(w, k);
    }
  }

  lemma ResumeKeepsInv(w: Page, i: nat)
    requires Inv(w) && CanResume(w, i)
    ensures Inv(Next(w, Resume(i)))
  {
    var ok := w.refreshes[w.requests[i].phase.on].ok;
    assert RequestInv(w, i);
    assert w.announced + [] == w.announced && w.wire + [] == w.wire;
    MoveKeepsInv(w, Next(w, Resume(i)), i, if ok then [Send(i)] else [], if ok then [] else [i]);
  }

  lemma SecondAnswerKeepsInv(w: Page, i: nat, answer: Answer)
    requires Inv(w) && In(w, i, Second)
    ensures Inv(AfterSecond(w, i, answer))
  {
    assert RequestInv(w, i);
    assert w.announced + [] == w.announced && w.wire + [] == w.wire;
    MoveKeepsInv(w, AfterSecond(w, i, answer), i, [], if answer == Status(UNAUTHORIZED) then [i] else []);
  }

  lemma NextKeepsInv(w: Page, e: Event)
    requires Inv(w)
    ensures Inv(Next(w, e))
  {
    match e
    case FirstAnswer(i, answer) =>
      if In(w, i, First) {
        FirstAnswerKeepsInv(w, i, answer);
      }
    case RefreshAnswer(_, _) => RefreshKeepsInv(w, e);
    case RefreshSettles(_) => RefreshKeepsInv(w, e);
    case Start(path) => StartKeepsInv(w, path);
    case Resume(i) =>
      if CanResume(w, i) {
        ResumeKeepsInv(w, i);
      }
    case SecondAnswer(i, answer) =>
      if In(w, i, Second) {
        SecondAnswerKeepsInv(w, i, answer);
      }
  }

  lemma {:induction false} RunKeepsInv(w: Page, events: seq<Event>)
    requires Inv(w)
    ensures Inv(Run(w, events))
  {
    if events != [] {
      RunKeepsInv(w, events[..|events| - 1]);
      NextKeepsInv(Run(w, events[..|events| - 1]), events[|events| - 1]);
    }
  }

  // --- what every run guarantees --------------------------------------------------------------

  /** At most one refresh is in flight, and `refreshing` says which. */
  lemma AtMostOneRefresh(events: seq<Event>)
    ensures var w := Run(OPENED, events);
            && (forall r :: 0 <= r < |w.refreshes| ==> (!w.refreshes[r].Settled? <==> w.refreshing == Some(r)))
            && |w.refreshes| <= |Joiners(w)|
  {
    RunKeepsInv(OPENED, events);
  }

  /**
   A call is sent once, or twice exactly when the refresh it waited for came back good; the page is
   told it is logged out exactly once for each call whose final answer is 401, never for `/auth/`.
   */
  lemma EachRequestAtMostTwice(events: seq<Event>, i: nat)
    ensures var w := Run(OPENED, events);
            i < |w.requests| ==>
              var q := w.requests[i];
              && 1 <= Sends(w, i) <= 2
              && (Sends(w, i) == 2 <==> Renewed(w, q) && !q.phase.Waiting?)
              && (q.phase.Done? && q.phase.status == UNAUTHORIZED && !IsAuth(q.path) <==> Announcements(w, i) > 0)
              && Announcements(w, i) <= 1
              && (q.phase.Done? && Refused(w, q) ==> Announcements(w, i) == 1)
              && (IsAuth(q.path) ==> Sends(w, i) == 1)
  {
    var w := Run(OPENED, events);
    RunKeepsInv(OPENED, events);
    if i < |w.requests| {
      assert RequestInv(w, i);
    }
  }

  /** No event of `events` settles refresh `r`. */
  predicate Pending(events: seq<Event>, r: nat) {
    forall k :: 0 <= k < |events| ==> events[k] != RefreshSettles(r)
  }

  /** A call that had not waited for a refresh in `w`, and has in `w2`, waits for `r`. */
  ghost predicate Share(w: Page, w2: Page, r: nat) {
    forall i: nat :: i < |w2.requests| && w2.requests[i].joined.Some? ==>
      || w2.requests[i].joined == Some(r)
      || (i < |w.requests| && w.requests[i].joined == w2.requests[i].joined)
  }

  lemma StepShares(w: Page, e: Event, r: nat)
    requires Inv(w) && w.refreshing == Some(r) && e != RefreshSettles(r)
    ensures var w2 := Next(w, e);
            && w2.refreshing == Some(r) && |w2.refreshes| == |w.refreshes|
            && |w2.requests| >= |w.requests| && Share(w, w2, r)
  {
    match e
    case FirstAnswer(i, answer) =>
      if In(w, i, First) {
        assert Next(w, e) == AfterFirst(w, i, answer);
      }
    case RefreshSettles(other) =>
      assert other >= |w.refreshes| || w.refreshes[other].Settled?;
    case _ =>
  }

  lemma ShareTrans(a: Page, b: Page, c: Page, r: nat)
    requires Share(a, b, r) && Share(b, c, r) && |b.requests| <= |c.requests|
    ensures Share(a, c, r)
  {
  }

  /**
   Until refresh `r` settles, whatever else happens, no other one is sent and every call that sees a
   401 waits for `r`.
   */
  lemma {:induction false} ConcurrentCallsShareOneRefresh(w: Page, events: seq<Event>, r: nat)
    requires Inv(w) && w.refreshing == Some(r) && Pending(events, r)
    ensures var w2 := Run(w, events);
            && w2.refreshing == Some(r) && |w2.refreshes| == |w.refreshes|
            && |w2.requests| >= |w.requests| && Share(w, w2, r)
  {
    if events != [] {
      var n := |events| - 1;
      var before := Run(w, events[..n]);
      ConcurrentCallsShareOneRefresh(w, events[..n], r);
      RunKeepsInv(w, events[..n]);
      assert events[n] != RefreshSettles(r);
      StepShares(before, events[n], r);
      ShareTrans(w, before, Next(before, events[n]), r);
    }
  }

  // --- no call hangs --------------------------------------------------------------------------

  function RequestWork(q: Request): nat {
    match q.phase
    case First => 5
    case Waiting(_) => 2
    case Second => 1
    case Done(_) => 0
    case Rejected => 0
  }

  function RefreshWork(r: Refresh): nat {
    match r
    case Sent => 2
    case Answered(_) => 1
    case Settled(_) => 0
  }

  function RequestsWork(s: seq<Request>): nat {
    if s == [] then 0 else RequestsWork(s[..|s| - 1]) + RequestWork(s[|s| - 1])
  }

  function RefreshesWork(s: seq<Refresh>): nat {
    if s == [] then 0 else RefreshesWork(s[..|s| - 1]) + RefreshWork(s[|s| - 1])
  }

  lemma {:induction false} RequestChanges(s: seq<Request>, i: nat, q: Request)
    requires i < |s|
    ensures RequestsWork(s[i := q]) + RequestWork(s[i]) == RequestsWork(s) + RequestWork(q)
  {
    var n := |s| - 1;
    if i == n {
      assert s[i := q][..n] == s[..n];
    } else {
      assert s[i := q][..n] == s[..n][i := q];
      RequestChanges(s[..n], i, q);
    }
  }

  lemma {:induction false} RefreshChanges(s: seq<Refresh>, i: nat, r: Refresh)
    requires i < |s|
    ensures RefreshesWork(s[i := r]) + RefreshWork(s[i]) == RefreshesWork(s) + RefreshWork(r)
  {
    var n := |s| - 1;
    if i == n {
      assert s[i := r][..n] == s[..n];
    } else {
      assert s[i := r][..n] == s[..n][i := r];
      RefreshChanges(s[..n], i, r);
    }
  }

  /** An upper bound on the turns left. */
  function Work(w: Page): nat {
    RequestsWork(w.requests) + RefreshesWork(w.refreshes)
  }

  lemma RequestMoves(w: Page, w2: Page, i: nat, q: Request)
    requires i < |w.requests| && w2.requests == w.requests[i := q] && w2.refreshes == w.refreshes
    ensures Work(w2) + RequestWork(w.requests[i]) == Work(w) + RequestWork(q)
  {
    RequestChanges(w.requests, i, q);
  }

  lemma RefreshMoves(w: Page, w2: Page, i: nat, r: Refresh)
    requires i < |w.refreshes| && w2.refreshes == w.refreshes[i := r] && w2.requests == w.requests
    ensures Work(w2) + RefreshWork(w.refreshes[i]) == Work(w) + RefreshWork(r)
  {
    RefreshChanges(w.refreshes, i, r);
  }

  lemma FirstAnswerIsProgress(w: Page, i: nat, answer: Answer)
    requires In(w, i, First)
    ensures Work(AfterFirst(w, i, answer)) < Work(w)
  {
    var w2 := AfterFirst(w, i, answer);
    if answer.Status? && answer.code == UNAUTHORIZED && !IsAuth(w.requests[i].path) {
      var (w1, _) := SharedRefresh(w);
      assert Work(w1) <= Work(w) + 2 by {
        assert (w.refreshes + [Sent])[..|w.refreshes|] == w.refreshes;
      }
      RequestMoves(w1, w2, i, w2.requests[i]);
    } else {
      RequestMoves(w, w2, i, w2.requests[i]);
    }
  }

  /** A call adds five turns; every turn but that uses one up. */
  lemma EveryTurnIsProgress(w: Page, e: Event)
    ensures e.Start? ==> Work(Next(w, e)) == Work(w) + 5
    ensures !e.Start? && Next(w, e) != w ==> Work(Next(w, e)) < Work(w)
  {
    var w2 := Next(w, e);
    if w2 != w {
      match e
      case Start(path) =>
        assert w2.requests[..|w.requests|] == w.requests;
      case FirstAnswer(i, answer) => FirstAnswerIsProgress(w, i, answer);
      case RefreshAnswer(r, _) => RefreshMoves(w, w2, r, w2.refreshes[r]);
      case RefreshSettles(r) => RefreshMoves(w, w2, r, w2.refreshes[r]);
      case Resume(i) => RequestMoves(w, w2, i, w2.requests[i]);
      case SecondAnswer(i, _) => RequestMoves(w, w2, i, w2.requests[i]);
    }
  }

  /** The turns of a run that did something, starts aside. */
  function Turns(w: Page, events: seq<Event>): nat {
    if events == [] then 0
    else
      var n := |events| - 1;
      Turns(w, events[..n])
      + if !events[n].Start? && Next(Run(w, events[..n]), events[n]) != Run(w, events[..n]) then 1 else 0
  }

  function Starts(events: seq<Event>): nat {
    if events == [] then 0 else Starts(events[..|events| - 1]) + if events[|events| - 1].Start? then 1 else 0
  }

  /** Five turns a call at most: nothing loops, not even when every answer is a 401. */
  lemma {:induction false} NothingLoops(events: seq<Event>)
    ensures Turns(OPENED, events) + Work(Run(OPENED, events)) <= 5 * Starts(events)
  {
    if events != [] {
      var n := |events| - 1;
      NothingLoops(events[..n]);
      EveryTurnIsProgress(Run(OPENED, events[..n]), events[n]);
    }
  }

  /** What the network or the event loop can do for call `i` next. */
  function Owed(w: Page, i: nat, answer: Answer): Event
    requires i < |w.requests|
  {
    match w.requests[i].phase
    case First => FirstAnswer(i, answer)
    case Second => SecondAnswer(i, answer)
    case Waiting(r) =>
      if r < |w.refreshes| && w.refreshes[r].Sent? then RefreshAnswer(r, answer)
      else if r < |w.refreshes| && w.refreshes[r].Answered? then RefreshSettles(r)
      else Resume(i)
    case Done(_) => Resume(i)
    case Rejected => Resume(i)
  }

  lemma WaiterMoves(w: Page, i: nat, r: nat, answer: Answer)
    requires In(w, i, Waiting(r)) && r < |w.refreshes|
    ensures Next(w, Owed(w, i, answer)) != w
  {
    var w2 := Next(w, Owed(w, i, answer));
    if w.refreshes[r].Settled? {
      assert w2.requests[i].phase != Waiting(r);
    } else {
      assert w2.refreshes[r] != w.refreshes[r];
    }
  }

  lemma AnsweredCallMoves(w: Page, i: nat, answer: Answer)
    requires In(w, i, First) || In(w, i, Second)
    ensures Next(w, Owed(w, i, answer)) != w
  {
    assert Next(w, Owed(w, i, answer)).requests[i].phase != w.requests[i].phase;
  }

  /** A call that is not over always has a turn coming: it never waits for a refresh that is lost. */
  lemma NobodyIsStuck(events: seq<Event>, i: nat, answer: Answer)
    ensures var w := Run(OPENED, events);
            i < |w.requests| ==>
              (w.requests[i].phase.Done? || w.requests[i].phase.Rejected?) || Next(w, Owed(w, i, answer)) != w
  {
    var w := Run(OPENED, events);
    RunKeepsInv(OPENED, events);
    if i < |w.requests| {
      assert RequestInv(w, i);
      match w.requests[i].phase
      case Waiting(r) => WaiterMoves(w, i, r, answer);
      case First => AnsweredCallMoves(w, i, answer);
      case Second => AnsweredCallMoves(w, i, answer);
      case _ =>
    }
  }
}
