/**
 How a call of app/static/js/api.js ends, told by the answers it was given: over every run, with any
 number of calls, refreshes and answers.
 */
module SessionAnswers {
  import opened Common
  import opened Session

  /** The answer event `e` gives call `i`, if it gives it one. */
  function Told(w: Page, e: Event, i: nat): seq<Answer> {
    if e.FirstAnswer? && e.i == i && In(w, i, First) then [e.answer]
    else if e.SecondAnswer? && e.i == i && In(w, i, Second) then [e.answer]
    else []
  }

  /** The answers call `i` has been given, in order. */
  function AnswersTo(events: seq<Event>, i: nat): seq<Answer> {
    if events == [] then []
    else
      var n := |events| - 1;
      var before, e := Run(OPENED, events[..n]), events[n];
      AnswersTo(events[..n], i)
      + Told(before, e, i)
  }

  /** The paths fetched so far, in order. */
  function Paths(events: seq<Event>): seq<string> {
    if events == [] then []
    else
      var n := |events| - 1;
      Paths(events[..n]) + if events[n].Start? then [events[n].path] else []
  }

  /** What event `e` makes of the reply to refresh `r`. */
  function ReplyAfter(w: Page, e: Event, r: nat, reply: Option<Answer>): Option<Answer> {
    if e.RefreshAnswer? && e.r == r && r < |w.refreshes| && w.refreshes[r].Sent? then Some(e.answer) else reply
  }

  /** The answer to refresh `r`, if it has come. */
  function RefreshReply(events: seq<Event>, r: nat): Option<Answer> {
    if events == [] then None
    else
      var n := |events| - 1;
      ReplyAfter(Run(OPENED, events[..n]), events[n], r, RefreshReply(events[..n], r))
  }

  predicate UnderAuth(path: string) {
    |path| >= 6 && path[..6] == "/auth/"
  }

  // --- a 401 joins the refresh ----------------------------------------------------------------

  /**
   A call outside `/auth/` whose first answer is 401 waits for a refresh, at whatever moment the answer
   comes: for the one in progress if there is one, and otherwise for a new one, sent there and then.
   */
  lemma UnauthorizedCallsJoin(events: seq<Event>, i: nat)
    requires In(Run(OPENED, events), i, First) && !UnderAuth(Run(OPENED, events).requests[i].path)
    ensures var before := Run(OPENED, events);
            var after := Run(OPENED, events + [FirstAnswer(i, Status(401))]);
            && |after.requests| == |before.requests|
            && after.refreshing.Some?
            && after.requests[i].joined == after.refreshing
            && after.requests[i].phase == Waiting(after.refreshing.value)
            && (before.refreshing.Some? ==>
                  && after.refreshing == before.refreshing
                  && after.refreshes == before.refreshes && after.wire == before.wire)
            && (before.refreshing.None? ==>
                  && after.refreshing == Some(|before.refreshes|)
                  && after.refreshes == before.refreshes + [Sent]
                  && after.wire == before.wire + [SendRefresh(|before.refreshes|)])
  {
    RunMore(events, FirstAnswer(i, Status(401)));
  }

  lemma RunMore(events: seq<Event>, e: Event)
    ensures Run(OPENED, events + [e]) == Next(Run(OPENED, events), e)
  {
    assert (events + [e])[..|events|] == events;
  }

  // --- what the answers say -------------------------------------------------------------------

  /** The call saw a 401 first and is not under `/auth/`. */
  predicate Joins(path: string, answers: seq<Answer>) {
    answers != [] && answers[0] == Status(401) && !UnderAuth(path)
  }

  /** Where a call stands, as its answers have it. */
  ghost predicate Fits(w: Page, q: Request, answers: seq<Answer>) {
    && |answers| <= 2
    && (q.joined.Some? <==> Joins(q.path, answers))
    && (|answers| == 2 ==> Joins(q.path, answers) && Renewed(w, q))
    && match q.phase
       case First => answers == []
       case Waiting(r) => |answers| == 1 && q.joined == Some(r)
       case Second => |answers| == 1 && Renewed(w, q)
       case Rejected => answers != [] && answers[|answers| - 1] == NetworkError
       case Done(code) =>
         && answers != [] && answers[|answers| - 1] == Status(code)
         && (|answers| == 1 && Joins(q.path, answers) ==> Refused(w, q))
  }

  /** What a refresh came to, as its reply has it. */
  predicate Replied(refresh: Refresh, reply: Option<Answer>) {
    match refresh
    case Sent => reply.None?
    case Answered(ok) => reply.Some? && (ok <==> reply.value.Status? && 200 <= reply.value.code < 300)
    case Settled(ok) => reply.Some? && (ok <==> reply.value.Status? && 200 <= reply.value.code < 300)
  }

  /** What a call that does not move was told stays true: settled refreshes do not change. */
  lemma StillFits(w: Page, e: Event, q: Request, answers: seq<Answer>)
    requires Inv(w) && Fits(w, q, answers)
    ensures Fits(Next(w, e), q, answers)
  {
    var w2 := Next(w, e);
    assert forall r :: 0 <= r < |w.refreshes| && w.refreshes[r].Settled? ==>
             r < |w2.refreshes| && w2.refreshes[r] == w.refreshes[r];
  }

  lemma MoverFits(w: Page, e: Event, i: nat, answers: seq<Answer>)
    requires Inv(w) && i < |w.requests| && Fits(w, w.requests[i], answers)
    requires e.FirstAnswer? || e.SecondAnswer? || e.Resume?
    requires e.i == i
    ensures var w2 := Next(w, e);
            i < |w2.requests| && w2.requests[i].path == w.requests[i].path
            && Fits(w2, w2.requests[i], answers + Told(w, e, i))
  {
    assert RequestInv(w, i);
    assert answers + [] == answers;
    match e
    case FirstAnswer(_, answer) =>
      if In(w, i, First) {
        assert answers + [answer] == [answer];
      }
    case SecondAnswer(_, answer) =>
      if In(w, i, Second) {
        assert (answers + [answer])[0] == answers[0];
      }
    case Resume(_) =>
  }

  lemma CallStaysFitting(w: Page, e: Event, i: nat, answers: seq<Answer>)
    requires Inv(w) && i < |w.requests| && Fits(w, w.requests[i], answers)
    ensures var w2 := Next(w, e);
            i < |w2.requests| && Fits(w2, w2.requests[i], answers + Told(w, e, i))
  {
    if (e.FirstAnswer? || e.SecondAnswer? || e.Resume?) && e.i == i {
      MoverFits(w, e, i, answers);
    } else {
      assert Next(w, e).requests[i] == w.requests[i];
      assert answers + [] == answers;
      StillFits(w, e, w.requests[i], answers);
    }
  }

  /** A call that was not there yet has no answers, and has just started if it is there now. */
  lemma NewCallFits(w: Page, e: Event, i: nat)
    requires i >= |w.requests|
    ensures Told(w, e, i) == []
    ensures i < |Next(w, e).requests| ==> Fits(Next(w, e), Next(w, e).requests[i], [])
  {
  }

  lemma {:induction false} EveryCallFits(events: seq<Event>, i: nat)
    ensures var w := Run(OPENED, events);
            if i < |w.requests| then Fits(w, w.requests[i], AnswersTo(events, i)) else AnswersTo(events, i) == []
  {
    if events != [] {
      var n := |events| - 1;
      var w, e := Run(OPENED, events[..n]), events[n];
      EveryCallFits(events[..n], i);
      RunKeepsInv(OPENED, events[..n]);
      hide Fits, Told, Next;
      if i < |w.requests| {
        CallStaysFitting(w, e, i, AnswersTo(events[..n], i));
      } else {
        NewCallFits(w, e, i);
        assert AnswersTo(events, i) == [];
      }
    }
  }

  lemma StepKeepsPaths(w: Page, e: Event)
    ensures var w2 := Next(w, e);
            && |w2.requests| == |w.requests| + (if e.Start? then 1 else 0)
            && (forall i :: 0 <= i < |w.requests| ==> w2.requests[i].path == w.requests[i].path)
            && (e.Start? ==> w2.requests[|w.requests|].path == e.path)
  {
  }

  lemma {:induction false} CallsHaveTheirPaths(events: seq<Event>)
    ensures |Run(OPENED, events).requests| == |Paths(events)|
    ensures forall i :: 0 <= i < |Paths(events)| ==> Run(OPENED, events).requests[i].path == Paths(events)[i]
  {
    if events != [] {
      var n := |events| - 1;
      CallsHaveTheirPaths(events[..n]);
      StepKeepsPaths(Run(OPENED, events[..n]), events[n]);
    }
  }

  lemma RefreshStaysReplied(w: Page, e: Event, r: nat, reply: Option<Answer>)
    requires if r < |w.refreshes| then Replied(w.refreshes[r], reply) else reply == None
    ensures var w2, now := Next(w, e), ReplyAfter(w, e, r, reply);
            if r < |w2.refreshes| then Replied(w2.refreshes[r], now) else now == None
  {
  }

  /** A refresh counts as good exactly when its answer was in the 200s. */
  lemma {:induction false} RefreshesEndAsAnswered(events: seq<Event>, r: nat)
    ensures var w, reply := Run(OPENED, events), RefreshReply(events, r);
            if r < |w.refreshes| then Replied(w.refreshes[r], reply) else reply == None
  {
    if events != [] {
      var n := |events| - 1;
      RefreshesEndAsAnswered(events[..n], r);
      RefreshStaysReplied(Run(OPENED, events[..n]), events[n], r, RefreshReply(events[..n], r));
    }
  }

  /** What a call's answers say about how it stands. */
  ghost predicate EndsAs(w: Page, q: Request, answers: seq<Answer>) {
    && (q.phase.First? <==> answers == [])
    && (q.phase.Rejected? <==> answers != [] && answers[|answers| - 1] == NetworkError)
    && (q.phase.Done? ==> answers != [] && answers[|answers| - 1] == Status(q.phase.status))
    && (answers != [] && !Joins(q.path, answers) ==> |answers| == 1 && (q.phase.Done? || q.phase.Rejected?))
    && (|answers| == 2 ==> Renewed(w, q) && (q.phase.Done? || q.phase.Rejected?))
    && (|answers| == 1 && Joins(q.path, answers) ==>
          && q.joined.Some?
          && match q.phase
             case Waiting(r) => r == q.joined.value
             case Second => Renewed(w, q)
             case Done(code) => Refused(w, q) && code == 401
             case _ => false)
  }

  lemma FitsMeans(w: Page, q: Request, answers: seq<Answer>)
    requires Fits(w, q, answers)
    ensures EndsAs(w, q, answers)
  {
  }

  /**
   How a call ends. It has at most two answers, and a second one only after a 401 outside `/auth/` and a
   refresh that came back good. It is rejected exactly when its last answer was a network error; when it
   is done its code is that of its last answer; and it is over once that answer is final.
   */
  lemma CallsEndAsAnswered(events: seq<Event>, i: nat)
    requires i < |Run(OPENED, events).requests|
    ensures |Paths(events)| == |Run(OPENED, events).requests|
    ensures Run(OPENED, events).requests[i].path == Paths(events)[i]
    ensures |AnswersTo(events, i)| <= 2
    ensures EndsAs(Run(OPENED, events), Run(OPENED, events).requests[i], AnswersTo(events, i))
  {
    EveryCallFits(events, i);
    CallsHaveTheirPaths(events);
    FitsMeans(Run(OPENED, events), Run(OPENED, events).requests[i], AnswersTo(events, i));
  }

  // --- one refresh for all --------------------------------------------------------------------

  lemma {:induction false} RunAppend(a: seq<Event>, b: seq<Event>)
    ensures Run(OPENED, a + b) == Run(Run(OPENED, a), b)
  {
    if b == [] {
      assert a + b == a;
    } else {
      assert (a + b)[..|a + b| - 1] == a + b[..|b| - 1];
      RunAppend(a, b[..|b| - 1]);
    }
  }

  /**
   While a refresh is in flight, whatever else happens: no other is sent, and every call outside
   `/auth/` that is told 401 for the first time in that while waits for that one.
   */
  lemma EveryoneWaitsForOneRefresh(before: seq<Event>, during: seq<Event>, r: nat, i: nat)
    requires Run(OPENED, before).refreshing == Some(r) && Pending(during, r)
    requires i < |Run(OPENED, before + during).requests|
    requires AnswersTo(before, i) == []
    requires Joins(Run(OPENED, before + during).requests[i].path, AnswersTo(before + during, i))
    ensures |Run(OPENED, before + during).refreshes| == |Run(OPENED, before).refreshes|
    ensures Run(OPENED, before + during).requests[i].joined == Some(r)
  {
    var w, w2 := Run(OPENED, before), Run(OPENED, before + during);
    RunAppend(before, during);
    RunKeepsInv(OPENED, before);
    ConcurrentCallsShareOneRefresh(w, during, r);
    EveryCallFits(before, i);
    EveryCallFits(before + during, i);
    assert w2.requests[i].joined.Some?;
    assert i < |w.requests| ==> w.requests[i].joined.None?;
  }
}
